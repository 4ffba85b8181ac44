/** The round controller: a state name, a phase timer, the level node,
    the defender pool and the live defenders and enemies, driven one
    FixedUpdate at a time. Every random draw and every engine-side change
    (physics moving things, collisions destroying them) is an input. */
module Round {
  import opened Pool
  import opened Upgrades
  import Spawn
  import opened Combat

  /** StartRound and RoundWin act once per 0.05 s of accumulated time. */
  const Quantum: real := 0.05
  /** The shop closes by itself once its timer reaches 31 s. */
  const ShopTimeout: real := 31.0
  /** StartRound stops spawning once this many defenders exist. */
  const RoundSize: nat := 110

  /** The name of the state node. Other stands for any name the switch
      does not know; Valid keeps the five switch names out of it. */
  datatype RoundState = Init | StartRound | PlayRound | RoundWin | Shop | GameOver | Other(name: string)

  /** A live enemy: its tier (index into the enemy table) and position. */
  datatype EnemyUnit = EnemyUnit(tier: nat, pos: Vec)

  /** Everything a tick can change, for stating what it leaves alone. */
  datatype GameView = GameView(state: RoundState, timer: real, levelNode: int, pool: array<Prefab>,
                               defenders: seq<Defender>, enemies: seq<EnemyUnit>, canvasActive: bool,
                               draft: seq<UpgradeRule>, volley: seq<Shot>)

  /** The random draws and engine placements one FixedUpdate may use:
      the two spawn draws, the pool slot drawn for the new defender, its
      offset from the centre, where a new enemy appears, and the shuffle
      draws. */
  datatype TickInputs = TickInputs(u1: real, u2: real, slot: nat, offset: Vec, spawnPos: Vec, draws: seq<int>)

  function Positions(enemies: seq<EnemyUnit>): (r: seq<Vec>)
    ensures |r| == |enemies| && forall i :: 0 <= i < |r| ==> r[i] == enemies[i].pos
  {
    seq(|enemies|, i requires 0 <= i < |enemies| => enemies[i].pos)
  }

  /** The transitions one FixedUpdate can make. */
  predicate Edge(from: RoundState, to: RoundState)
  {
    match from
    case Init => to == StartRound
    case StartRound => to == StartRound || to == PlayRound
    case PlayRound => to == PlayRound || to == GameOver || to == RoundWin
    case RoundWin => to == RoundWin || to == Shop || to == StartRound
    case Shop => to == Shop || to == StartRound
    case GameOver => to == Init
    case Other(_) => to == Init
  }

  /** The choice-button loop: button i shows upgrade i while upgrades
      remain, and the buttons past the end are deactivated. */
  method FillChoices(upgrades: seq<UpgradeRule>, slots: nat) returns (buttons: seq<UpgradeRule>)
    ensures |buttons| == Pool.Min(|upgrades|, slots)
    ensures forall i :: 0 <= i < |buttons| ==> buttons[i] == upgrades[i]
  {
    buttons := [];
    for i := 0 to slots
      invariant buttons == upgrades[..Pool.Min(i, |upgrades|)]
    {
      if i >= |upgrades| {
        continue;
      }
      buttons := buttons + [upgrades[i]];
    }
  }

  /** The shuffled eligible upgrades and the prefix of them the choice
      buttons show. */
  method OfferUpgrades(pool: array<Prefab>, rules: seq<UpgradeRule>, draws: seq<int>, slots: nat)
    returns (upgrades: seq<UpgradeRule>, buttons: seq<UpgradeRule>)
    requires ValidDraws(draws, |rules|)
    ensures ValidDraws(draws, |EligibleRules(rules, pool[..])|)
    ensures upgrades == Shuffled(EligibleRules(rules, pool[..]), draws)
    ensures buttons == upgrades[..Pool.Min(|upgrades|, slots)]
  {
    upgrades := GetValidUpgrades(pool, rules, draws);
    buttons := FillChoices(upgrades, slots);
  }

  /** The shop timeout: reshuffle the eligible upgrades and apply only the
      first one, if there is any. */
  method ApplyFirstUpgrade(pool: array<Prefab>, rules: seq<UpgradeRule>, draws: seq<int>)
    requires ValidDraws(draws, |rules|)
    modifies pool
    ensures ValidDraws(draws, |EligibleRules(rules, old(pool[..]))|)
    ensures var upgrades := Shuffled(EligibleRules(rules, old(pool[..])), draws);
            pool[..] == if |upgrades| == 0 then old(pool[..])
                        else Converted(old(pool[..]), upgrades[0].prerequisite, upgrades[0].prefab, upgrades[0].countToChange)
  {
    var upgrades := GetValidUpgrades(pool, rules, draws);
    if |upgrades| > 0 {
      var upgrade := upgrades[0];
      ConvertUpTo(pool, upgrade.prerequisite, upgrade.prefab, upgrade.countToChange);
    }
  }

  class Game {
    /** The configured upgrade rules. */
    const rules: seq<UpgradeRule>
    /** The length of the enemy tier table. */
    const tierCount: nat
    /** The number of choice buttons on the shop canvas. */
    const choiceSlots: nat

    var state: RoundState
    var timer: real
    /** The number in the level node; StartRound plays level levelNode - 1. */
    var levelNode: int
    var pool: array<Prefab>
    var defenders: seq<Defender>
    var enemies: seq<EnemyUnit>
    var canvasActive: bool
    /** The upgrades behind the active choice buttons, in button order. */
    var draft: seq<UpgradeRule>
    /** The projectiles launched by the last combat tick. */
    var volley: seq<Shot>

    ghost function View(): GameView
      reads this
    {
      GameView(state, timer, levelNode, pool, defenders, enemies, canvasActive, draft, volley)
    }

    /** The pool exists once Init has run; the timer never goes negative;
        a round never holds more than 110 defenders; every defender's
        scale is within [MinSize, 1]; every enemy's tier indexes the tier
        table; the canvas is only up in the shop or on the tick after it
        closed by timeout. */
    ghost predicate Valid()
      reads this
    {
      && (state != Init ==> pool.Length == PoolSize)
      && timer >= 0.0 && levelNode >= 0
      && |defenders| <= RoundSize
      && (forall i :: 0 <= i < |defenders| ==> MinSize <= defenders[i].scale <= 1.0)
      && (forall i :: 0 <= i < |enemies| ==> enemies[i].tier < tierCount)
      && |draft| <= choiceSlots
      && (canvasActive ==> state == Shop || state == StartRound)
      && (state.Other? ==> state.name !in ["Init", "StartRound", "PlayRound", "RoundWin", "Shop"])
    }

    /** The controller as the first FixedUpdate finds it: no children yet,
        so it creates the state node named Init with the timer at 0. The
        pool does not exist before Init runs; an empty array stands for it. */
    constructor (rules: seq<UpgradeRule>, tierCount: nat, choiceSlots: nat)
      ensures Valid() && state == Init && timer == 0.0 && !canvasActive
      ensures this.rules == rules && this.tierCount == tierCount && this.choiceSlots == choiceSlots
    {
      this.rules := rules;
      this.tierCount := tierCount;
      this.choiceSlots := choiceSlots;
      state := Init;
      timer := 0.0;
      levelNode := 0;
      pool := new Prefab[0];
      defenders := [];
      enemies := [];
      canvasActive := false;
      draft := [];
      volley := [];
    }

    /** Renames the state node and zeroes the timer; nothing else changes. */
    method SetState(s: RoundState)
      modifies this
      ensures View() == old(View()).(state := s, timer := 0.0)
    {
      state := s;
      timer := 0.0;
    }

    /** Init: clear the round, rebuild the default pool, put the level
        node back to 0 and move on to StartRound. */
    method Reset()
      requires !canvasActive && |draft| <= choiceSlots
      modifies this
      ensures Valid()
      ensures fresh(pool) && pool[..] == DefaultPool()
      ensures View() == old(View()).(state := StartRound, timer := 0.0, levelNode := 0, pool := pool,
                                     defenders := [], enemies := [], volley := [])
    {
      defenders := [];
      enemies := [];
      volley := [];
      pool := NewDefaultPool();
      levelNode := 0;
      SetState(StartRound);
    }

    /** A StartRound tick. Once a quantum has accumulated: with 110
        defenders the round starts; otherwise the tier decision may add an
        enemy, and one defender copied from a drawn pool slot joins at full
        scale. A tier outside the table makes the lookup throw, which ends
        the tick before the defender spawns. */
    method StartRoundTick(dt: real, u1: real, u2: real, slot: nat, offset: Vec, spawnPos: Vec)
      requires Valid() && state == StartRound && !canvasActive && dt >= 0.0 && slot < PoolSize
      modifies this
      ensures Valid() && pool == old(pool)
      ensures old(timer) + dt < Quantum ==> View() == old(View()).(timer := old(timer) + dt)
      ensures old(timer) + dt >= Quantum && |old(defenders)| >= RoundSize ==>
                View() == old(View()).(state := PlayRound, timer := 0.0)
      ensures old(timer) + dt >= Quantum && |old(defenders)| < RoundSize ==>
                var s := Spawn.SpawnTier(levelNode - 1, |old(defenders)|, tierCount, u1, u2);
                if s.Enemy? && !(0 <= s.tier < tierCount) then
                  View() == old(View()).(timer := old(timer) + dt - Quantum)
                else
                  View() == old(View()).(timer := old(timer) + dt - Quantum,
                                         enemies := old(enemies) + (if s.Enemy? then [EnemyUnit(s.tier, spawnPos)] else []),
                                         defenders := old(defenders) + [Defender(pool[slot], offset, 1.0)])
    {
      timer := timer + dt;
      if timer < Quantum {
        return;
      }
      timer := timer - Quantum;
      if |defenders| >= RoundSize {
        SetState(PlayRound);
        return;
      }
      var spawn := Spawn.SpawnTier(levelNode - 1, |defenders|, tierCount, u1, u2);
      if spawn.Enemy? {
        if !(0 <= spawn.tier < tierCount) {
          return;
        }
        enemies := enemies + [EnemyUnit(spawn.tier, spawnPos)];
      }
      var prefab := pool[slot];
      defenders := defenders + [Defender(prefab, offset, 1.0)];
    }

    /** A PlayRound tick: no defenders left ends the game, checked before
        no enemies left, which wins the round; otherwise one combat tick
        runs over the defenders. */
    method PlayRoundTick(dt: real)
      requires Valid() && state == PlayRound && !canvasActive
      modifies this
      ensures Valid()
      ensures |old(defenders)| == 0 ==> View() == old(View()).(state := GameOver, timer := 0.0)
      ensures |old(defenders)| > 0 && |old(enemies)| == 0 ==> View() == old(View()).(state := RoundWin, timer := 0.0)
      ensures |old(defenders)| > 0 && |old(enemies)| > 0 ==>
                && Volley(defenders, volley) == CombatTick(old(defenders), Positions(enemies), dt)
                && View() == old(View()).(defenders := defenders, volley := volley)
    {
      if |defenders| == 0 {
        SetState(GameOver);
        return;
      }
      if |enemies| == 0 {
        SetState(RoundWin);
        return;
      }
      var before := defenders;
      var bubbles := new Defender[|before|](i requires 0 <= i < |before| => before[i]);
      assert bubbles[..] == before;
      var shots := ResolveCombat(bubbles, Positions(enemies), dt);
      CombatKeepsDefenders(before, Positions(enemies), dt);
      defenders := bubbles[..];
      volley := shots;
    }

    /** A RoundWin tick. Once a quantum has accumulated: while defenders
        remain the first one is destroyed; when none remain the level node
        goes up by one, the shuffled eligible upgrades fill the choice
        buttons in order, and the shop opens if there is any upgrade at
        all, else the next round starts. */
    method RoundWinTick(dt: real, draws: seq<int>)
      requires Valid() && state == RoundWin && !canvasActive && dt >= 0.0 && ValidDraws(draws, |rules|)
      modifies this
      ensures Valid()
      ensures old(timer) + dt < Quantum ==> View() == old(View()).(timer := old(timer) + dt)
      ensures old(timer) + dt >= Quantum && |old(defenders)| > 0 ==>
                View() == old(View()).(timer := old(timer) + dt - Quantum, defenders := old(defenders)[1..])
      ensures ValidDraws(draws, |EligibleRules(rules, pool[..])|)
      ensures old(timer) + dt >= Quantum && |old(defenders)| == 0 ==>
                var upgrades := Shuffled(EligibleRules(rules, pool[..]), draws);
                && draft == upgrades[..Pool.Min(|upgrades|, choiceSlots)]
                && View() == old(View()).(state := if |upgrades| == 0 then StartRound else Shop, timer := 0.0,
                                          levelNode := old(levelNode) + 1, draft := draft)
    {
      timer := timer + dt;
      if timer < Quantum {
        return;
      }
      timer := timer - Quantum;
      if |defenders| > 0 {
        defenders := defenders[1..];
        return;
      }
      CloseRound(draws);
    }

    /** The RoundWin step once no defender is left: next level, fill the
        choice buttons, and open the shop or start the next round. */
    method CloseRound(draws: seq<int>)
      requires Valid() && state == RoundWin && !canvasActive && |defenders| == 0 && ValidDraws(draws, |rules|)
      modifies this
      ensures Valid()
      ensures ValidDraws(draws, |EligibleRules(rules, pool[..])|)
      ensures var upgrades := Shuffled(EligibleRules(rules, pool[..]), draws);
              && draft == upgrades[..Pool.Min(|upgrades|, choiceSlots)]
              && View() == old(View()).(state := if |upgrades| == 0 then StartRound else Shop, timer := 0.0,
                                        levelNode := old(levelNode) + 1, draft := draft)
    {
      levelNode := levelNode + 1;
      var upgrades, buttons := OfferUpgrades(pool, rules, draws, choiceSlots);
      draft := buttons;
      if |upgrades| == 0 {
        SetState(StartRound);
      } else {
        SetState(Shop);
      }
    }

    /** A Shop tick: the canvas is up and the timer runs; at 31 s the
        shop closes by itself, applying only the first upgrade of a fresh
        shuffle (not necessarily the first button), and the next round
        starts. The canvas stays up until the next tick takes it down. */
    method ShopTick(dt: real, draws: seq<int>)
      requires Valid() && state == Shop && dt >= 0.0 && ValidDraws(draws, |rules|)
      modifies this, pool
      ensures Valid()
      ensures ValidDraws(draws, |EligibleRules(rules, old(pool[..]))|)
      ensures old(timer) + dt < ShopTimeout ==>
                View() == old(View()).(timer := old(timer) + dt, canvasActive := true) && pool[..] == old(pool[..])
      ensures old(timer) + dt >= ShopTimeout ==>
                var upgrades := Shuffled(EligibleRules(rules, old(pool[..])), draws);
                && View() == old(View()).(state := StartRound, timer := 0.0, canvasActive := true)
                && pool[..] == if |upgrades| == 0 then old(pool[..])
                               else Converted(old(pool[..]), upgrades[0].prerequisite, upgrades[0].prefab, upgrades[0].countToChange)
    {
      canvasActive := true;
      timer := timer + dt;
      if timer >= ShopTimeout {
        ApplyFirstUpgrade(pool, rules, draws);
        SetState(StartRound);
      }
    }

    /** The click on choice button k: nothing unless the canvas is up and
        the button is active; otherwise the canvas goes down, the drafted
        upgrade converts its slots and the next round starts. */
    method Accept(k: nat)
      requires Valid()
      modifies this, pool
      ensures Valid()
      ensures !old(canvasActive) || k >= |old(draft)| ==> View() == old(View()) && pool[..] == old(pool[..])
      ensures old(canvasActive) && k < |old(draft)| ==>
                && View() == old(View()).(state := StartRound, timer := 0.0, canvasActive := false)
                && pool[..] == Converted(old(pool[..]), draft[k].prerequisite, draft[k].prefab, draft[k].countToChange)
    {
      if !canvasActive || k >= |draft| {
        return;
      }
      canvasActive := false;
      var upgrade := draft[k];
      ConvertUpTo(pool, upgrade.prerequisite, upgrade.prefab, upgrade.countToChange);
      SetState(StartRound);
    }

    /** One FixedUpdate: dispatch on the state name. Every state but the
        shop takes the canvas down; a state the switch does not handle
        (GameOver or any unknown name) goes to Init without running. */
    method FixedUpdate(dt: real, inputs: TickInputs)
      requires Valid() && dt >= 0.0 && inputs.slot < PoolSize && ValidDraws(inputs.draws, |rules|)
      modifies this, pool
      ensures Valid()
      ensures Edge(old(state), state)
      ensures canvasActive == (old(state) == Shop)
      ensures old(state) == Init ==> levelNode == 0
      ensures old(state) != Init && old(state) != RoundWin ==> levelNode == old(levelNode)
      ensures old(state) == RoundWin ==> levelNode == old(levelNode) || levelNode == old(levelNode) + 1
    {
      match state
      case Init =>
        canvasActive := false;
        Reset();
      case StartRound =>
        canvasActive := false;
        StartRoundTick(dt, inputs.u1, inputs.u2, inputs.slot, inputs.offset, inputs.spawnPos);
      case PlayRound =>
        canvasActive := false;
        PlayRoundTick(dt);
      case RoundWin =>
        canvasActive := false;
        RoundWinTick(dt, inputs.draws);
      case Shop =>
        ShopTick(dt, inputs.draws);
      case GameOver =>
        SetState(Init);
      case Other(_) =>
        SetState(Init);
    }

    /** The engine destroys defender i (an enemy reached it). */
    method DefenderDestroyed(i: nat)
      requires Valid() && i < |defenders|
      modifies this
      ensures Valid()
      ensures View() == old(View()).(defenders := old(defenders[..i] + defenders[i + 1..]))
    {
      defenders := defenders[..i] + defenders[i + 1..];
    }

    /** The engine destroys enemy i (a projectile hit it). */
    method EnemyDestroyed(i: nat)
      requires Valid() && i < |enemies|
      modifies this
      ensures Valid()
      ensures View() == old(View()).(enemies := old(enemies[..i] + enemies[i + 1..]))
    {
      enemies := enemies[..i] + enemies[i + 1..];
    }

    /** Physics moves everything between ticks; only positions change. */
    method Moved(defenderPos: seq<Vec>, enemyPos: seq<Vec>)
      requires Valid() && |defenderPos| == |defenders| && |enemyPos| == |enemies|
      modifies this
      ensures Valid()
      ensures |defenders| == |old(defenders)| && |enemies| == |old(enemies)|
      ensures forall i :: 0 <= i < |defenders| ==> defenders[i] == old(defenders[i]).(pos := defenderPos[i])
      ensures forall i :: 0 <= i < |enemies| ==> enemies[i] == old(enemies[i]).(pos := enemyPos[i])
      ensures View() == old(View()).(defenders := defenders, enemies := enemies)
    {
      var ds, es := defenders, enemies;
      defenders := seq(|ds|, i requires 0 <= i < |ds| => ds[i].(pos := defenderPos[i]));
      enemies := seq(|es|, i requires 0 <= i < |es| => es[i].(pos := enemyPos[i]));
    }
  }
}
