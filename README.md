# Buuble round controller in Dafny

This project models the round/combat controller of Buuble, the `Game`
component in `Assets/Game.cs`. The controller keeps the following state:

- a pool of 100 defender archetype slots;
- a state node whose name selects the phase;
- a phase timer;
- a level node;
- the live defenders and enemies.

On every FixedUpdate it runs one phase. Init clears the field and resets the
pool, the level node and the state. StartRound
spawns one defender per 0.05 s quantum, plus an enemy whose tier a
level-scaled decision chain picks. PlayRound runs the auto-targeting and
reload loop. RoundWin clears the field and drafts upgrades. Shop waits for a
choice or times out after 31 s.

The model has five modules, one per piece of the controller:

- `Pool` (`pool.dfy`) holds the defender pool. It covers the reset layout
  and the in-place "convert up to N matching slots" loop. That loop is
  specified by `Converted`, a function on sequences.
- `Upgrades` (`upgrades.dfy`) holds the upgrade selector. It covers the
  tally dictionary loop and the bootstrap substitution (a Bubble
  prerequisite that has run out is read as Shooter). It also covers the
  threshold filter and the in-place shuffle.
- `Spawn` (`spawn.dfy`) holds the enemy-tier decision. It is a pure
  function of the level, the defender count, the length of the tier table
  and the two uniform draws. It uses C# integer division and remainder,
  which truncate toward zero.
- `Combat` (`combat.dfy`) holds the PlayRound combat tick. Its parts are:
  - the stat table;
  - reload by scale;
  - the in-range list;
  - the nearest-target search;
  - removal of the engaged enemy from the list.

  `CombatTick` specifies one tick on values. `ResolveCombat` is the loop
  over the defender array.
- `Round` (`round.dfy`) holds the class `Game`, the state machine. It has
  one method per phase, the `FixedUpdate` dispatch and the shop's click
  callback. It also has the engine events that change the field between
  ticks: destruction and movement.

Every random draw is a parameter:

- the two spawn draws in [0, 1];
- the pool slot of the new defender;
- the spawn positions;
- the shuffle's swap indices.

The only thing required of the shuffle's swap indices is that the draw for
step i lies in [0, i), as `Random.Range(0, i)` guarantees.

The model follows Game.cs as written, including these points a reader may
not expect:

- GameOver is not a case of the state switch. The next FixedUpdate takes the
  default branch and goes to Init.
- `startIndex` is capped only from above, at the last tier.
- The nearest-target search replaces its best candidate on an equal
  distance, so the later in-range entry wins ties.
- The shop timeout applies the first upgrade of a fresh shuffle. That is not
  necessarily the upgrade on the first button.
- After the shop timeout the canvas stays up until the next FixedUpdate
  takes it down. A click in that window is still accepted and converts a
  second time.
- Because every swap index is drawn strictly below its step, the shuffle is
  Sattolo's algorithm. It never leaves an item in place, as
  `ShuffleMovesEveryItem` proves.
- Because of the `break` at the end of the bullet loop, every armed
  archetype fires one projectile per shot, whatever its bullet count.

## Model

| member | source | states |
|---|---|---|
| Pool.DefaultPool | Assets/Game.cs:155-159 | The reset layout has exactly 100 slots |
| Pool.DefaultPoolCounts | Assets/Game.cs:155-159 | The reset pool holds exactly 10 Shooter slots and 90 Bubble slots |
| Pool.NewDefaultPool | Assets/Game.cs:155-159 | Reset allocates a fresh 100-slot array: Shooter in slots 0-9, Bubble in the rest |
| Pool.Converted | Assets/Game.cs:113-119 | The conversion of a pool keeps its length; which slots change is stated by Pool.ConvertedAt and how counts move by Pool.ConvertedCounts |
| Pool.ConvertedAt | Assets/Game.cs:114-119 | Slot i is rewritten exactly when it holds the prerequisite and fewer than N earlier slots hold it, so the first matches in index order are taken; every other slot keeps its value |
| Pool.ConvertedCounts | Assets/Game.cs:114-119 | Exactly min(N, number of matches) slots move from the prerequisite to the result; the count of every other archetype is unchanged |
| Pool.ConvertedNoBudget | Assets/Game.cs:113-114 | A budget of zero or less converts nothing |
| Pool.FreshPoolConvertsTen | Assets/Game.cs:114-119 | Converting ten Bubble slots to Shooter on a reset pool gives 20 Shooter and 80 Bubble slots |
| Pool.ConvertUpTo | Assets/Game.cs:425-431 | The in-place scan leaves the pool equal to the conversion of its old contents |
| Pool.ScanSlot | Assets/Game.cs:114-118 | At each slot the match count grows by one exactly on a match, and while it is below N a match is rewritten |
| Pool.ScanRest | Assets/Game.cs:114 | Once N matches have been met, every later slot keeps its value, so the loop may stop there |
| Upgrades.CountPrefabs | Assets/Game.cs:536-541 | The tally has a key exactly for each archetype in the pool, and each count equals its number of slots |
| Upgrades.Effective | Assets/Game.cs:547-552 | The prerequisite is substituted exactly when it is Bubble, no Bubble slot is left and the result is not Shooter; the substitute is Shooter and nothing else changes |
| Upgrades.Affordable | Assets/Game.cs:547-554 | A rule is affordable exactly when the pool holds at least its threshold of its prerequisite, counting Shooter slots instead when the Bubble fallback applies; a threshold of 0 or less is always met |
| Upgrades.EligibleRules | Assets/Game.cs:543-556 | No more rules than configured, and every kept rule's prerequisite fills at least its threshold of slots |
| Upgrades.EligibleRulesExactly | Assets/Game.cs:544-556 | A rule is kept exactly when it is the effective form of an affordable configured rule |
| Upgrades.DraftedRuleConvertsFully | Assets/Game.cs:554-555 | Applying a kept rule converts its full threshold: the result grows and the prerequisite shrinks by exactly that many slots |
| Upgrades.SelectEligible | Assets/Game.cs:543-556 | The filter loop over the configured rules yields exactly the eligible rules, in configuration order |
| Upgrades.Swap | Assets/Game.cs:567 | Exchanging two slots keeps the list's length |
| Upgrades.SwapPermutes | Assets/Game.cs:567 | Exchanging two slots is a permutation |
| Upgrades.ShuffledFrom | Assets/Game.cs:564-567 | The swap steps from slot i down to slot 1 keep the list's length |
| Upgrades.Shuffled | Assets/Game.cs:562-569 | The whole shuffle is a permutation of the list it starts from |
| Upgrades.ShufflePermutes | Assets/Game.cs:564-567 | The shuffle is a permutation of its input |
| Upgrades.Shuffle | Assets/Game.cs:562-569 | The in-place swap loop leaves the shuffle of the old contents, a permutation of them |
| Upgrades.ShuffleFillsFromBelow | Assets/Game.cs:564-567 | The steps from i down never touch a slot above i, and step i fills slot i from a strictly lower slot |
| Upgrades.NoFixedPointFrom | Assets/Game.cs:564-567 | On slot numbers, the remaining steps leave no slot holding its own number |
| Upgrades.ShuffleMovesEveryItem | Assets/Game.cs:566 | With two or more upgrades, every slot of the shuffled list holds the upgrade from a different slot |
| Upgrades.GetValidUpgrades | Assets/Game.cs:534-560 | The result is the shuffle of the eligible rules, a permutation of them, and each result's prerequisite fills at least its threshold |
| Spawn.CsDiv | Assets/Game.cs:185 | Integer division truncates toward zero for both signs |
| Spawn.CsRem | Assets/Game.cs:186 | The remainder takes the dividend's sign and completes the truncating division |
| Spawn.StartIndex | Assets/Game.cs:185-190 | startIndex never exceeds the last tier; for a level >= 0 it is the level's band number level/5 unless the cap at the last tier applies; for a negative level it is at most 0 |
| Spawn.BaseFifths | Assets/Game.cs:186 | For a level >= 0 the base amount is (level mod 5 + 1) fifths, between 1 and 5; for a negative level it lies between -3 and 1 |
| Spawn.SecondFifths | Assets/Game.cs:188 | For a level >= 0 the second amount is ((level mod 5) div 2) fifths, between 0 and 2, and zero exactly on the first two levels of a band; for a negative level it lies between -2 and 0 |
| Spawn.SpawnTier | Assets/Game.cs:194-216 | With at least two tiers the chosen tier indexes the table; in the warm-up round the tier is 0 |
| Spawn.WarmupSchedule | Assets/Game.cs:194-200 | At level < 0 a tier-0 enemy spawns exactly when the defender count is 0, 3, 6 or 9, whatever the draws |
| Spawn.BossOverridesDraws | Assets/Game.cs:201-204 | On the last level of a band, with room for tier startIndex+2 and exactly 100 defenders, that tier spawns whatever the draws |
| Spawn.BandEndAlwaysSpawns | Assets/Game.cs:209-212 | On the last level of a band the base amount is 1, so every quantum spawns an enemy |
| Spawn.NextTierNotBeforeThirdLevel | Assets/Game.cs:205-208 | On the first two levels of a band the second amount is 0, so a positive draw never picks the tier above the band's |
| Spawn.SingleTierFallbackUnderflows | Assets/Game.cs:213-216 | With one tier and level >= 5, index -1 is chosen exactly when the defender count is not 1 and the second draw misses the base amount |
| Spawn.SingleTierUnderflowExample | Assets/Game.cs:213-216 | Level 5, two defenders, one tier and draws of 0.5 pick index -1 |
| Combat.StatsOf | Assets/Game.cs:266-325 | Every armed archetype has at least one bullet, a positive fire rate and speed, and range 10 or 20 |
| Combat.ArmedExactlyTheNine | Assets/Game.cs:267-324 | Exactly the nine listed names have stats; Bubble and every other name are skipped |
| Combat.MaxAngle | Assets/Game.cs:357-361 | The jitter bound is 0 exactly when "Sniper" occurs somewhere in the name, and 5 otherwise |
| Combat.SnipersAimStraight | Assets/Game.cs:357-361 | The three sniper archetypes fire with no angular jitter |
| Combat.Reloaded | Assets/Game.cs:327-332 | One reload step keeps the scale in [0.75, 1], never lowers it, and reaches 1 exactly when progress plus deltaTime times the fire rate reaches 1 |
| Combat.ReloadTime | Assets/Game.cs:327-333 | After firing and k reload ticks, the scale is 0.75 + 0.25 min(1, k step), so it is loaded again exactly when k step >= 1 |
| Combat.InRangeUpTo | Assets/Game.cs:254-260 | The in-range list holds valid, increasing enemy indices, each within radius 30, and every enemy within radius 30 |
| Combat.CollectInRange | Assets/Game.cs:254-260 | The list-building loop yields the in-range list |
| Combat.NoneInRange | Assets/Game.cs:254-260 | With no enemy within radius 30, the in-range list is empty |
| Combat.CombatIdleWithoutTargets | Assets/Game.cs:262 | With no enemy within radius 30, the tick changes no defender (no reload either) and fires nothing |
| Combat.Nearest | Assets/Game.cs:336-349 | The search returns -1 exactly when no listed enemy is within range; otherwise it returns one within range, no other listed enemy within range is strictly closer, and every later one within range is strictly farther (the later entry wins ties) |
| Combat.FindTarget | Assets/Game.cs:336-349 | The search loop computes the nearest-target index |
| Combat.Engage | Assets/Game.cs:264-381 | One defender's turn keeps its name and position and fires at most one projectile, carrying the shooter's index and name |
| Combat.TurnUnder | Assets/Game.cs:266-325 | The stat switch's turn for a given lookup keeps name and position and fires at most once, tagged with the shooter |
| Combat.ArmedTurn | Assets/Game.cs:327-381 | An armed turn keeps name and position and fires at most one projectile, carrying the shooter's index and name |
| Combat.CombatTick | Assets/Game.cs:254-382 | A combat tick yields one defender entry per defender |
| Combat.FiresAtNearest | Assets/Game.cs:336-376 | A fired projectile targets an enemy still on the list, within range, with none strictly closer, and exactly that entry leaves the list |
| Combat.BulletCountIgnored | Assets/Game.cs:363-380 | Any two positive bullet counts give the same turn |
| Combat.ArmedFacts | Assets/Game.cs:327-381 | An armed turn keeps name and position and the scale in [0.75, 1]; a reloading defender takes one reload step and holds fire; at most one projectile leaves, from a loaded defender that drops to 0.75; list plus targets equal the list before |
| Combat.ArmedFiresIffTarget | Assets/Game.cs:336-376 | A loaded armed defender with a positive bullet count fires if and only if some listed enemy is within its range; with none in range the turn leaves defender and list unchanged |
| Combat.KeepsUnder | Assets/Game.cs:264-334 | Under any stat lookup the turn keeps the defender (a skipped one entirely) and takes its reload step |
| Combat.ShotsUnder | Assets/Game.cs:336-380 | Under any stat lookup at most one projectile leaves, as entitled, and the list loses exactly its target |
| Combat.TargetsUnder | Assets/Game.cs:264-376 | Under any stat lookup a skipped defender does nothing, and a loaded armed one fires exactly when a listed enemy is within range and otherwise changes nothing |
| Combat.TurnFacts | Assets/Game.cs:264-381 | Every turn keeps the defender (a skipped archetype entirely), reloads, fires at most once and removes exactly the enemy it targets; a loaded armed defender fires if and only if a listed enemy is within its range, and with none in range its turn changes nothing |
| Combat.RunUpTo | Assets/Game.cs:264-381 | After the first n turns there is one entry per defender so far, and the list still holds valid enemy indices |
| Combat.RunDefenders | Assets/Game.cs:264-334 | After n turns every defender so far is kept and took its reload step |
| Combat.KeptAppend | Assets/Game.cs:264-334 | One more kept, reloaded defender extends the record of the turns so far |
| Combat.RunShots | Assets/Game.cs:351-380 | Every projectile so far was fired by a loaded armed defender that dropped to 0.75, in turn order, one per defender at most |
| Combat.ShotsFiredAppend | Assets/Game.cs:351-380 | One more turn that fires at most once, as entitled, extends the record of who fired, in turn order |
| Combat.RunConservesTargets | Assets/Game.cs:376 | The enemies still listed plus those targeted make up the in-range list exactly |
| Combat.CombatKeepsDefenders | Assets/Game.cs:264-334 | A tick keeps every defender's name and position and its scale in [0.75, 1], leaves skipped archetypes alone, and reloads every reloading defender when some enemy is in range |
| Combat.CombatTargetsDistinct | Assets/Game.cs:339-376 | Only enemies within radius 30 are targeted, and no enemy is targeted twice in a tick |
| Combat.CombatShooters | Assets/Game.cs:351-380 | Every projectile of a tick comes from a distinct loaded armed defender that dropped to 0.75 and carries its name |
| Combat.TakeTurn | Assets/Game.cs:266-381 | One pass of the loop body, with the stat switch, yields exactly the turn `Engage` defines |
| Combat.ArmedStep | Assets/Game.cs:327-381 | The reload, search and fire part of the body yields exactly the turn `ArmedTurn` defines |
| Combat.ResolveCombat | Assets/Game.cs:254-382 | The loop over the defender array updates scales in place and returns the projectiles, as the combat tick specifies |
| Round.FillChoices | Assets/Game.cs:402-410 | Button i shows upgrade i for i below min(number of upgrades, number of buttons); the rest are inactive |
| Round.OfferUpgrades | Assets/Game.cs:401-411 | The draft is the shuffled eligible rules, and the buttons show its first entries |
| Round.ApplyFirstUpgrade | Assets/Game.cs:109-120 | The shop timeout converts the pool by the first upgrade of a fresh shuffle, if there is any |
| Round.Game.constructor | Assets/Game.cs:66-70 | The first FixedUpdate finds the state Init with the timer at 0 and the canvas down |
| Round.Game.SetState | Assets/Game.cs:135-140 | Renaming the state always zeroes the timer and changes nothing else |
| Round.Game.Reset | Assets/Game.cs:142-168 | Init clears defenders, enemies and projectiles, builds the default pool, sets the level node to 0 and enters StartRound |
| Round.Game.StartRoundTick | Assets/Game.cs:170-234 | Below a quantum only the timer moves; at 110 defenders the phase switches to PlayRound and nothing spawns; otherwise the tier decision may add an enemy and one defender from the drawn pool slot joins at scale 1 (an out-of-table tier aborts the tick first) |
| Round.Game.PlayRoundTick | Assets/Game.cs:236-262 | No defenders means GameOver, checked before no enemies, which means RoundWin; otherwise defenders and projectiles are the combat tick's |
| Round.Game.RoundWinTick | Assets/Game.cs:385-396 | Per quantum, the first remaining defender is destroyed; with none left the round closes |
| Round.Game.CloseRound | Assets/Game.cs:398-445 | The level node goes up by exactly 1, the buttons show the first drafted upgrades, and the phase is Shop if any upgrade exists, else StartRound |
| Round.Game.ShopTick | Assets/Game.cs:100-125 | The canvas is up and the timer runs; at 31 s only the first upgrade of a fresh shuffle is applied and StartRound begins |
| Round.Game.Accept | Assets/Game.cs:420-435 | A click is a no-op unless the canvas is up and the button active; otherwise the canvas goes down, the pool converts by that upgrade and StartRound begins |
| Round.Game.FixedUpdate | Assets/Game.cs:64-129 | Each tick takes one edge of the state machine (GameOver and unknown names go to Init), keeps the invariant, leaves the canvas up only in the shop, and changes the level node only in Init (to 0) and RoundWin (by at most 1) |
| Round.Game.DefenderDestroyed | Assets/Game.cs:494-498 | A collision removes exactly one defender and nothing else |
| Round.Game.EnemyDestroyed | Assets/BulletScript.cs:5-11 | A projectile hit removes exactly one enemy and nothing else |
| Round.Game.Moved | Assets/Game.cs:526-529 | Physics changes positions only |

## Left out

- Floating point: timers, scales, positions and draws are exact reals, so single-precision rounding (for example in the 0.05 s quantum) is not modelled.
- `UpdateBubbles` forces (Assets/Game.cs:448-532) are not modelled. The centering and pairwise forces, normalisation and lerps feed `Rigidbody2D.AddForce`. Their result reaches the model as the engine event `Moved`. The inner loop starts at index 1, so entity 0 is never a partner. This affects forces only.
- Collision destruction in `UpdateBubbles` is deferred to the engine. A "Spike" defender also destroying the enemy, and the enemy's relocation to radius 30, are sequences of the events `DefenderDestroyed`, `EnemyDestroyed` and `Moved`.
- Engine object creation is left out: instantiation, layers, names of spawned objects, positions on circles and disks, projectile direction and velocity, angular jitter draws and the 10 s projectile lifetime. A projectile is the record `Shot`.
- `Update` key handling and `Time.timeScale` are not modelled. They change how often FixedUpdate runs in real time, not what one tick does; each tick's deltaTime is a parameter here.
- The camera, the countdown fill, the button label text and the audio calls are rendering and I/O.
- `AudioPlayer.cs` is not part of this model. It is audio pooling.
- Round.Game.EnemyDestroyed and Round.Game.DefenderDestroyed assume the destroyed object carries no "OnDestroy" children. `OnDestroyScript.cs` (lines 9-26) moves such children to the destroyed object's parent, which is the enemy or defender group, activates them and gives them its velocity. So an enemy whose destruction releases further enemies (which would delay RoundWin), or a defender that releases further defenders, is not captured. Its audio call and the way Init strips the script before clearing the field (Assets/Game.cs:144-145) are not modelled either.
- Random number generation: each draw is a parameter, so uniformity (of the shuffle in particular) is not stated.
- Prefabs are identified by their names. The Bubble and Shooter prefabs are assumed to be named "Bubble" and "Shooter", as the stat table's names suggest.
- A spawned defender is assumed to start at scale 1, the prefab's scale.
- The range in the stat table is stored squared (100, 400), since it is only compared with squared distances.
- Before Init the pool is null. An empty array stands for it, and no method reads it before Init.
- Round.Game.StartRoundTick: an enemy tier outside the table throws an index exception in Game.cs. The model ends the tick there, after the timer update and before the defender spawns. The engine's logging of the exception is not modelled.
- Round.Game.FixedUpdate: its contract states the transition, the canvas and the level node, not each phase's full effect, which the phase methods state.
