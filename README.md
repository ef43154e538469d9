# Unicopia core rules in Dafny

This project models the rule-bearing core of Unicopia, a Minecraft mod about ponies, and proves properties of that model. It covers:

- **Flight.** `PlayerPhysics` is the per-tick flight state machine of a pony. Each tick reconciles the host's `abilities.flying` flag with the two derived flags `isFlyingSurvival` and `isFlyingEither`, then takes either the flying branch or the take-off test. The flying branch counts air time, drains the magic reserves past a level-dependent grace period, decays the thrust scale and draws turbulence. The core also covers flight capability, flight requests and the three persisted fields.
- **Magic reserves.** `ManaContainer` holds four clamped bars: energy, exertion, xp and mana. Its mana bar turns every spend into experience, levels up at most once per call and discounts the debit by `1 + level`.
- **Fruit trees.** `FruitBearingBlock` is the growth automaton of fruit-bearing leaves. It has a four-stage cycle and an age counter in 0..25. A random tick runs a bounded loop of growth steps that places fruit below the leaves and removes it. Bucking resets the tree.
- **Small rule sets.**
  - `RacePredicate`: the include/exclude race filter, its factory and its bare-set encoding.
  - `ItemGroupRegistry`: the group registry, and the re-entrancy guard of a dynamic group's entries callback.
  - `FoodType`: the raw/meat/fish classification.

Floats are modelled over `real`. Java's `(int)` cast truncates toward zero and is written out as `Flight.TruncToInt`; Java's signed `%` is written out as `FruitBearing.JavaRem`.

What the host computes is passed in as inputs: game mode, sneaking, collisions, water, the solid-block test above the head, the spell, the species, positions, speed and random draws. The same goes for the fruit block's growth-step count, light level, decay test and rendering seed, and for the item variations. Stateful code is modelled as classes:

- `Physics.PlayerPhysics`, next to a small `Physics.Player` for the host entity's fields a tick writes;
- `MagicReserves.Bar`, `MagicReserves.LevelStore` and `MagicReserves.ManaContainer`;
- `FruitBearing.World`;
- `ItemGroups.Registry`, `ItemGroups.DynamicGroup` and `ItemGroups.EntryCollector`.

Each method is proved against a function of module `Flight`, `MagicReserves`, `FruitBearing` or `ItemGroups`. The properties are proved about those functions.

Files: `wrappers.dfy` (Option), `food_type.dfy`, `race_predicate.dfy`, `item_group_registry.dfy`, `fruit_bearing_block.dfy`, `mana_container.dfy`, `flight_rules.dfy` (the decision logic of a tick as functions) and `player_physics.dfy` (the physics object and its methods).

The mana bar's setter, `XpCollectingBar.set` (ManaContainer.java:60), divides the lowering by `1 + level` whenever mana is lowered, whether or not the level can still rise. `MagicReserves.ManaSet` states both cases: a level that cannot rise leaves xp and level alone, and the discount still applies.

Observations the proofs make explicit:

- The take-off test `vy > 0 && (hor > 0.2 || (motion > 0.2 && vy < -0.2))` has a disjunct that can never hold. It is exactly `vy > 0 && hor > 0.2` (`Flight.EngageGuard`).
- Outside creative and spectator mode, or under inverted gravity, a horizontal collision clears every flight flag during reconciliation. In creative mode with normal gravity the flag is left alone. The take-off test does not look at collisions, so a survival tick that collides can set all three flags again (`Flight.CollisionDoesNotBlockTakeOff`).
- When the pony can fly or flight is allowed, `updateFlightStat(false)` never stops a flying pony; without either, any request clears flight. In creative mode a request sets `isFlyingSurvival`, which a tick would never set there (`Flight.FlightRequestOnlyStarts`).
- A flying tick's mana debit is divided by the level twice: `tick` computes `(int)(-motion * 50 / (level + 1))` (PlayerPhysics.java:106), and the mana setter divides the lowering by `1 + level` again (ManaContainer.java:60). The cost of flight therefore falls with the square of `level + 1` (`Flight.Drain`).

## Model

| member | source | states |
|---|---|---|
| FoodTypes.IsRaw | src/main/java/com/minelittlepony/unicopia/item/toxin/FoodType.java:8-10 | isRaw holds exactly for the types that have not been cooked |
| FoodTypes.IsMeat | src/main/java/com/minelittlepony/unicopia/item/toxin/FoodType.java:12-14 | isMeat holds exactly for the types made of meat, by an independent origin map |
| FoodTypes.IsFish | src/main/java/com/minelittlepony/unicopia/item/toxin/FoodType.java:16-18 | isFish holds exactly for the types made of fish, by the same origin map |
| FoodTypes.MeatAndFishExclusive | src/main/java/com/minelittlepony/unicopia/item/toxin/FoodType.java:12-18 | no type is both meat and fish |
| FoodTypes.NeitherMeatNorFishIsVegan | src/main/java/com/minelittlepony/unicopia/item/toxin/FoodType.java:12-18 | a type is neither meat nor fish iff it is VEGAN |
| FoodTypes.RawTypes | src/main/java/com/minelittlepony/unicopia/item/toxin/FoodType.java:8-10 | isRaw holds exactly for RAW_MEAT, RAW_FISH and VEGAN; the two cooked types are not raw |
| RacePredicates.Empty | src/main/java/com/minelittlepony/unicopia/advancement/RacePredicate.java:14 | EMPTY names no race on either side |
| RacePredicates.Test | src/main/java/com/minelittlepony/unicopia/advancement/RacePredicate.java:31-34 | a race passes iff (include is empty or holds it) and exclude does not hold it: the emptiness guard on exclude is redundant |
| RacePredicates.EmptyAcceptsAll | src/main/java/com/minelittlepony/unicopia/advancement/RacePredicate.java:14 | EMPTY accepts every race |
| RacePredicates.ExclusionWins | src/main/java/com/minelittlepony/unicopia/advancement/RacePredicate.java:33 | a race in both sets is rejected |
| RacePredicates.IncludeOnly | src/main/java/com/minelittlepony/unicopia/advancement/RacePredicate.java:33 | with no exclusions, a non-empty include set accepts exactly its members |
| RacePredicates.Of | src/main/java/com/minelittlepony/unicopia/advancement/RacePredicate.java:23-28 | of(∅, ∅) is EMPTY; in every case the result holds exactly the given sets |
| RacePredicates.Decode | src/main/java/com/minelittlepony/unicopia/advancement/RacePredicate.java:17-21 | the record form decodes to its two sets; the bare form decodes to include = set, exclude = ∅ |
| RacePredicates.EncodeBare | src/main/java/com/minelittlepony/unicopia/advancement/RacePredicate.java:21 | the bare encoding keeps the include set and drops the exclude set: it decodes to the same include set and no exclusions |
| RacePredicates.BareRoundTrip | src/main/java/com/minelittlepony/unicopia/advancement/RacePredicate.java:21 | the bare form encodes back as include; a predicate with no exclusions is restored from it; bare and record-with-empty-exclude decode alike |
| ItemGroups.Registered | src/main/java/com/minelittlepony/unicopia/item/group/ItemGroupRegistry.java:35 | the group becomes a key, its set gains the item (and only it), every other group keeps its set |
| ItemGroups.RegisterIdempotent | src/main/java/com/minelittlepony/unicopia/item/group/ItemGroupRegistry.java:35 | registering the same pair twice equals registering it once |
| ItemGroups.RegisterCommutes | src/main/java/com/minelittlepony/unicopia/item/group/ItemGroupRegistry.java:35 | two registrations commute |
| ItemGroups.Registry.constructor | src/main/java/com/minelittlepony/unicopia/item/group/ItemGroupRegistry.java:32 | the registry starts empty |
| ItemGroups.Registry.Register | src/main/java/com/minelittlepony/unicopia/item/group/ItemGroupRegistry.java:34-37 | returns its argument unchanged and updates the map as Registered says |
| ItemGroups.Flatten | src/main/java/com/minelittlepony/unicopia/item/group/ItemGroupRegistry.java:46-48 | the in-order concatenation of every item's variations that the forEach builds; FlattenAppend and FlattenContains state its properties |
| ItemGroups.FlattenAppend | src/main/java/com/minelittlepony/unicopia/item/group/ItemGroupRegistry.java:46-48 | the concatenated variations of two item streams are the concatenation of each |
| ItemGroups.FlattenContains | src/main/java/com/minelittlepony/unicopia/item/group/ItemGroupRegistry.java:46-48 | a stack is produced iff it is among the variations of some item |
| ItemGroups.EntryCollector.constructor | src/main/java/com/minelittlepony/unicopia/item/group/ItemGroupRegistry.java:41 | the collector the callback appends to starts empty |
| ItemGroups.DynamicGroup.constructor | src/main/java/com/minelittlepony/unicopia/item/group/ItemGroupRegistry.java:40 | the reloading flag starts false |
| ItemGroups.DynamicGroup.Entries | src/main/java/com/minelittlepony/unicopia/item/group/ItemGroupRegistry.java:41-50 | a call while reloading adds nothing and leaves the flag set; otherwise it appends the in-order concatenation of every item's variations and ends with the flag clear |
| FruitBearing.FromOrdinal | src/main/java/com/minelittlepony/unicopia/block/FruitBearingBlock.java:169-173 | the stage at a given ordinal has that ordinal |
| FruitBearing.Next | src/main/java/com/minelittlepony/unicopia/block/FruitBearingBlock.java:171-173 | getNext cycles IDLE → FLOWERING → FRUITING → WITHERING → IDLE |
| FruitBearing.NextFour | src/main/java/com/minelittlepony/unicopia/block/FruitBearingBlock.java:171-173 | four applications of getNext are the identity |
| FruitBearing.NextNShift | src/main/java/com/minelittlepony/unicopia/block/FruitBearingBlock.java:171-173 | n + 4 applications equal n applications |
| FruitBearing.NextNPeriodic | src/main/java/com/minelittlepony/unicopia/block/FruitBearingBlock.java:171-173 | n applications equal n mod 4 applications |
| FruitBearing.Lower | src/main/java/com/minelittlepony/unicopia/block/FruitBearingBlock.java:177 | lower-casing keeps the length and maps each character by LowerChar: a capital letter becomes its small letter, every other character is kept |
| FruitBearing.AsString | src/main/java/com/minelittlepony/unicopia/block/FruitBearingBlock.java:175-178 | the four names are "idle", "flowering", "fruiting", "withering" |
| FruitBearing.AsStringRoundTrip | src/main/java/com/minelittlepony/unicopia/block/FruitBearingBlock.java:175-178 | every stage is read back from its name, so the names are distinct |
| FruitBearing.CycleAge | src/main/java/com/minelittlepony/unicopia/block/FruitBearingBlock.java:105 | cycling AGE_25 adds one below 25 and wraps 25 to 0 |
| FruitBearing.GrowthStep | src/main/java/com/minelittlepony/unicopia/block/FruitBearingBlock.java:104-111 | a fruiting step ages by one, or moves to WITHERING at age 0 once the age passes 20 (age 25 wraps to 0 and stays fruiting), and never leaves the age above 20; any other stage resets the age and advances the stage; persistence is kept |
| FruitBearing.Down | src/main/java/com/minelittlepony/unicopia/block/FruitBearingBlock.java:113 | the position below differs from the position |
| FruitBearing.JavaRem | src/main/java/com/minelittlepony/unicopia/block/FruitBearingBlock.java:160 | Java's remainder: congruent to the dividend modulo the divisor; the Euclidean one for a non-negative dividend, in (-b, 0] for a negative one |
| FruitBearing.IsPositionValidForFruit | src/main/java/com/minelittlepony/unicopia/block/FruitBearingBlock.java:159-161 | holds iff the seed is positive and ≡ 1 mod 3 (a negative seed never passes the signed remainder test) |
| FruitBearing.StepWorld | src/main/java/com/minelittlepony/unicopia/block/FruitBearingBlock.java:112-134 | the leaves are stored; only the position below can change besides; it changes only by placing fruit (fruiting, valid position, air below) or removing this tree's fruit (withering), and both happen when their conditions hold |
| FruitBearing.Run | src/main/java/com/minelittlepony/unicopia/block/FruitBearingBlock.java:99-138 | the world and leaves after n iterations of the growth loop; RunFrame, RunAgeBound and RunSkipsIdleDraws state its properties |
| FruitBearing.RunFrame | src/main/java/com/minelittlepony/unicopia/block/FruitBearingBlock.java:99-138 | after n iterations the loop's state is RunLeaves, only the leaves and the block below may have changed, the leaves are stored once any iteration advanced, and the world is untouched otherwise |
| FruitBearing.RunAgeBound | src/main/java/com/minelittlepony/unicopia/block/FruitBearingBlock.java:99-111 | once any iteration has advanced, the age is at most 20 |
| FruitBearing.RunSkipsIdleDraws | src/main/java/com/minelittlepony/unicopia/block/FruitBearingBlock.java:100-102 | iterations whose shouldAdvance draw is false change nothing |
| FruitBearing.RandomTickWorld | src/main/java/com/minelittlepony/unicopia/block/FruitBearingBlock.java:92-138 | the world a random tick leaves: unchanged for decaying or persistent leaves or at light ≤ 8, otherwise Run for max(steps, 0) iterations; RandomTickFrame states its frame |
| FruitBearing.World.constructor | src/main/java/com/minelittlepony/unicopia/block/FruitBearingBlock.java:89 | the world holds the given blocks |
| FruitBearing.World.SetBlock | src/main/java/com/minelittlepony/unicopia/block/FruitBearingBlock.java:112 | setBlockState changes that one position |
| FruitBearing.RandomTick | src/main/java/com/minelittlepony/unicopia/block/FruitBearingBlock.java:89-140 | the loop with invariants leaves the world RandomTickWorld gives: unchanged when decaying, persistent or at light ≤ 8, otherwise exactly max(steps, 0) iterations of the growth step |
| FruitBearing.RandomTickFrame | src/main/java/com/minelittlepony/unicopia/block/FruitBearingBlock.java:92-138 | a random tick changes no position other than the leaves and the one below |
| FruitBearing.OnBucked | src/main/java/com/minelittlepony/unicopia/block/FruitBearingBlock.java:142-152 | the leaves become IDLE with age 0; the drops are the fruit block's own when the block below is this tree's buckable fruit, and empty otherwise |
| MagicReserves.Clamp | src/main/java/com/minelittlepony/unicopia/entity/player/ManaContainer.java:85 | the result is within [lo, hi], equal to v inside, to the nearer bound outside |
| MagicReserves.ClampIdempotent | src/main/java/com/minelittlepony/unicopia/entity/player/ManaContainer.java:85 | clamping twice is clamping once |
| MagicReserves.XpRate | src/main/java/com/minelittlepony/unicopia/entity/player/ManaContainer.java:53 | the xp rate 1/1000^(1 + level) is positive and at most 1/1000 |
| MagicReserves.XpRateStep | src/main/java/com/minelittlepony/unicopia/entity/player/ManaContainer.java:53 | each level divides the rate by 1000 |
| MagicReserves.Initial | src/main/java/com/minelittlepony/unicopia/entity/player/ManaContainer.java:16-19 | energy 0, exertion 0, xp 0, mana 100, all within their maxima 100, 10, 1, 100 |
| MagicReserves.CollectXp | src/main/java/com/minelittlepony/unicopia/entity/player/ManaContainer.java:52-58 | xp gains spend × rate, clamped; the level rises by one, with xp reset to 0, iff the gain fills the bar; xp stays below 1; other bars are untouched |
| MagicReserves.ManaSet | src/main/java/com/minelittlepony/unicopia/entity/player/ManaContainer.java:49-64 | a value not below the current mana is a plain clamped set; a lowering set, when the level may rise, converts the spend into experience exactly as CollectXp does (xp gains spend/1000^(1 + level), levelling up once iff the bar fills); it then sets mana to the clamp of current + diff/(1 + new level), never below the value asked for nor below 0; when the level cannot rise, xp and level are unchanged (the discount still applies) |
| MagicReserves.DiscountedDebit | src/main/java/com/minelittlepony/unicopia/entity/player/ManaContainer.java:60 | a negative difference divided by a level factor ≥ 1 stays negative and no larger in magnitude |
| MagicReserves.ManaAdd | src/main/java/com/minelittlepony/unicopia/entity/player/ManaContainer.java:49-64 | add(d) on the mana bar leaves energy and exertion alone; a debit lowers mana by at most d; a gain leaves xp and level alone |
| MagicReserves.LevelZeroSpend | src/main/java/com/minelittlepony/unicopia/entity/player/ManaContainer.java:49-64 | at level 0, spending 50 of 100 mana gives xp 0.05 and mana 50 |
| MagicReserves.LevelUpOnFullBar | src/main/java/com/minelittlepony/unicopia/entity/player/ManaContainer.java:49-64 | at xp 0.97, spending 50 levels up once, resets xp and debits only 25 |
| MagicReserves.Bar.constructor | src/main/java/com/minelittlepony/unicopia/entity/player/ManaContainer.java:72-76 | a bar starts at its initial value within [0, max] |
| MagicReserves.Bar.Set | src/main/java/com/minelittlepony/unicopia/entity/player/ManaContainer.java:84-86 | BarInst.set stores clamp(v, 0, max) |
| MagicReserves.Bar.Add | src/main/java/com/minelittlepony/unicopia/entity/player/ManaContainer.java:84-86 | add is set(get() + d) |
| MagicReserves.Bar.PercentFill | src/main/java/com/minelittlepony/unicopia/entity/player/ManaContainer.java:54 | the fill of a valid bar is a fraction in [0, 1], equal to 1 exactly when the bar is full |
| MagicReserves.LevelStore.constructor | src/main/java/com/minelittlepony/unicopia/entity/player/ManaContainer.java:52-55 | the level store holds a level and its can-level-up predicate |
| MagicReserves.LevelStore.Add | src/main/java/com/minelittlepony/unicopia/entity/player/ManaContainer.java:55 | the level grows by n |
| MagicReserves.ManaContainer.ValidInBounds | src/main/java/com/minelittlepony/unicopia/entity/player/ManaContainer.java:84-86 | a valid container's bars are all within their bounds |
| MagicReserves.ManaContainer.constructor | src/main/java/com/minelittlepony/unicopia/entity/player/ManaContainer.java:14-20 | the four distinct bars start as Initial says |
| MagicReserves.ManaContainer.SetMana | src/main/java/com/minelittlepony/unicopia/entity/player/ManaContainer.java:49-64 | XpCollectingBar.set leaves the reserves ManaSet gives |
| MagicReserves.ManaContainer.CollectXpFrom | src/main/java/com/minelittlepony/unicopia/entity/player/ManaContainer.java:52-58 | the experience step leaves the reserves CollectXp gives |
| MagicReserves.ManaContainer.AddMana | src/main/java/com/minelittlepony/unicopia/entity/player/ManaContainer.java:49-64 | getMana().add(d) leaves the reserves ManaAdd gives |
| MagicReserves.ManaContainer.AddExertion | src/main/java/com/minelittlepony/unicopia/entity/player/PlayerPhysics.java:109 | exertion gains d, clamped to [0, 10]; nothing else changes |
| MagicReserves.ManaContainer.AddEnergy | src/main/java/com/minelittlepony/unicopia/entity/player/PlayerPhysics.java:110 | energy gains d, clamped to [0, 100]; nothing else changes |
| Flight.ResolveCapability | src/main/java/com/minelittlepony/unicopia/entity/player/PlayerPhysics.java:239-252 | the independent capability resolution: the override exactly in creative or spectator mode; an effect grant only from a live flight-predicate spell that answers yes; a species grant only without such a spell |
| Flight.CheckCanFly | src/main/java/com/minelittlepony/unicopia/entity/player/PlayerPhysics.java:239-252 | creative or spectator grants flight; otherwise a live flight-predicate spell decides; otherwise the species decides; the answer equals "granted" of the independent ResolveCapability |
| Flight.SpellAnswerIsFinal | src/main/java/com/minelittlepony/unicopia/entity/player/PlayerPhysics.java:244-248 | with a live flight-predicate spell, the species makes no difference |
| Flight.Permission | src/main/java/com/minelittlepony/unicopia/entity/player/PlayerPhysics.java:79-88 | the derived flags follow the host flag, and survival flight is the flag outside creative mode; creative mode leaves the flag alone; outside it a stopping contact clears it, and otherwise a permitted earlier flight resumes |
| Flight.InvertedGravity | src/main/java/com/minelittlepony/unicopia/entity/player/PlayerPhysics.java:90-97 | with normal gravity nothing changes; with inverted gravity onGround follows the block above the head, and a solid block above or a horizontal collision clears all three flags |
| Flight.Reconcile | src/main/java/com/minelittlepony/unicopia/entity/player/PlayerPhysics.java:79-97 | after reconciliation isFlyingEither equals the flag, and survival flight implies the flag and non-creative mode |
| Flight.ReconcileFacts | src/main/java/com/minelittlepony/unicopia/entity/player/PlayerPhysics.java:79-97 | outside creative a stopping contact clears all three flags; under inverted gravity a solid block above or a horizontal collision clears them in any mode; survival implies either and non-creative; either equals flying; onGround follows the block above under inverted gravity; without contact a permitted earlier flight resumes |
| Flight.IsFlying | src/main/java/com/minelittlepony/unicopia/entity/player/PlayerPhysics.java:56-59 | isFlying implies survival flight, equals it without an elytra glide or a vehicle, and fails with either |
| Flight.FlightBranchNeedsSurvival | src/main/java/com/minelittlepony/unicopia/entity/player/PlayerPhysics.java:56-136 | the flying branch is taken exactly on reconciled survival flight without gliding or riding, never in creative mode; gliding or riding resets the air time, draws no turbulence and drains nothing |
| Flight.HorizontalMotion | src/main/java/com/minelittlepony/unicopia/entity/player/PlayerPhysics.java:235-237 | the squared horizontal distance is non-negative |
| Flight.Motion | src/main/java/com/minelittlepony/unicopia/entity/player/PlayerPhysics.java:141 | with the last position at height 0, the squared distance is the horizontal one plus the square of the height |
| Flight.EngageGuard | src/main/java/com/minelittlepony/unicopia/entity/player/PlayerPhysics.java:143 | the take-off test as written holds iff vy > 0 and horizontal motion > 0.2 |
| Flight.ThrustScaleAfter | src/main/java/com/minelittlepony/unicopia/entity/player/PlayerPhysics.java:179-185 | the thrust scale is reset to 1 or shrinks, so it stays in [0, 1] |
| Flight.WingCue | src/main/java/com/minelittlepony/unicopia/entity/player/PlayerPhysics.java:130-133 | the wing cue happens only on the client and only on every 20th air tick |
| Flight.TruncToInt | src/main/java/com/minelittlepony/unicopia/entity/player/PlayerPhysics.java:106 | the (int) cast truncates toward zero |
| Flight.DrainDue | src/main/java/com/minelittlepony/unicopia/entity/player/PlayerPhysics.java:100-103 | the drain gate never opens in the first 100 air ticks |
| Flight.DrainGateGrowsWithLevel | src/main/java/com/minelittlepony/unicopia/entity/player/PlayerPhysics.java:100-103 | a higher level only lengthens the grace period |
| Flight.Exhaustion | src/main/java/com/minelittlepony/unicopia/entity/player/PlayerPhysics.java:113-116 | the exhaustion amount is positive for positive air time |
| Flight.Debit | src/main/java/com/minelittlepony/unicopia/entity/player/PlayerPhysics.java:101-106 | the mana debit is never positive and at most 50 × horizontal motion in magnitude, since the divisor level + 1 is ≥ 1 |
| Flight.DebitBound | src/main/java/com/minelittlepony/unicopia/entity/player/PlayerPhysics.java:106 | the truncated quotient lies between -50 × motion and 0 |
| Flight.LevelZeroDrain | src/main/java/com/minelittlepony/unicopia/entity/player/PlayerPhysics.java:103-121 | at level 0, 0.4 of squared horizontal motion drains 80 mana to 60 with no exhaustion |
| Flight.Penalty | src/main/java/com/minelittlepony/unicopia/entity/player/PlayerPhysics.java:108-120 | below 20 % mana exertion gains 2 and energy gains 2 + (int)(5 × motion), both clamped; at or above it nothing happens; exhaustion is applied iff mana < 10 % on a tenth tick; mana, xp and level are untouched |
| Flight.Drain | src/main/java/com/minelittlepony/unicopia/entity/player/PlayerPhysics.java:103-121 | mana becomes clamp(mana + Debit/(1 + new level)), so the debit, already divided by level + 1, is divided by the level again in the mana setter; mana stays within 50 × motion of its old value; the bars stay in bounds; the level rises by at most one; the low-mana penalty applies, with its exertion and energy amounts, exactly below 20 % |
| Flight.ApplyTurbulence | src/main/java/com/minelittlepony/unicopia/entity/player/PlayerPhysics.java:205-230 | the applied forward value never exceeds 4 and equals the raw one up to 4; the wind sound plays iff the pre-cap value is ≥ 1; the thunder gust uses the pre-cap value |
| Flight.WindRushNeedsBoost | src/main/java/com/minelittlepony/unicopia/entity/player/PlayerPhysics.java:207-225 | with draws in range, the wind sound needs the 1/40 roll or both 1/30 rolls |
| Flight.StackedRollsHitCap | src/main/java/com/minelittlepony/unicopia/entity/player/PlayerPhysics.java:209-229 | all rolls together give a raw value of 75, capped to 4, with the wind sound |
| Flight.Advanced | src/main/java/com/minelittlepony/unicopia/entity/player/PlayerPhysics.java:100-154 | the second phase: the counter follows TicksStep, the last position is stored at height 0, onGround is kept, and the fall distance is kept off the flying branch |
| Flight.TickReserves | src/main/java/com/minelittlepony/unicopia/entity/player/PlayerPhysics.java:100-121 | the reserves are drained exactly on a flying tick past the gate, stay in bounds and never gain mana |
| Flight.TickStateFacts | src/main/java/com/minelittlepony/unicopia/entity/player/PlayerPhysics.java:79-154 | a tick keeps the thrust scale in [0, 1]; the counter resets off flight and grows by one in flight; survival implies either and non-creative; take-off happens iff not flying, not creative, rising and horizontal motion > 0.2, and sets all three flags; the last position is stored at height 0; the fall is cancelled exactly in flight |
| Flight.ContactEndsAirTime | src/main/java/com/minelittlepony/unicopia/entity/player/PlayerPhysics.java:79-136 | outside creative a stopping contact prevents the flying branch and resets the counter |
| Flight.CollisionDoesNotBlockTakeOff | src/main/java/com/minelittlepony/unicopia/entity/player/PlayerPhysics.java:82-146 | a horizontal collision clears flight in reconciliation, yet a rising fast tick takes off again |
| Flight.TicksAfterCountsFlights | src/main/java/com/minelittlepony/unicopia/entity/player/PlayerPhysics.java:103-136 | over any sequence of ticks the counter equals the number of trailing flying ticks (plus the start value if every tick flew) |
| Flight.DrainGrace | src/main/java/com/minelittlepony/unicopia/entity/player/PlayerPhysics.java:101-103 | after a grounded tick and n flying ticks the counter is n, and the next flying tick drains iff n > (level + 1) × 100 |
| Flight.FlightStat | src/main/java/com/minelittlepony/unicopia/entity/player/PlayerPhysics.java:254-267 | with capability or permission the flag becomes flag ∨ request, otherwise false; survival copies it |
| Flight.FlightRequestOnlyStarts | src/main/java/com/minelittlepony/unicopia/entity/player/PlayerPhysics.java:254-267 | with capability or permission a request to stop never clears flight; a request in creative mode sets survival flight |
| Flight.WriteFlight | src/main/java/com/minelittlepony/unicopia/entity/player/PlayerPhysics.java:270-275 | toNBT changes only the three flight keys |
| Flight.ReadFlight | src/main/java/com/minelittlepony/unicopia/entity/player/PlayerPhysics.java:278-285 | fromNBT's reads: a field differs from its default only when its key holds a tag of the right type with that value |
| Flight.PersistRoundTrip | src/main/java/com/minelittlepony/unicopia/entity/player/PlayerPhysics.java:270-285 | fromNBT(toNBT) restores isFlyingSurvival, isFlyingEither and ticksInAir |
| Flight.MissingFieldsDefault | src/main/java/com/minelittlepony/unicopia/entity/player/PlayerPhysics.java:278-285 | a compound without the keys restores no flight and 0 air time |
| Physics.PlayerPhysics.constructor | src/main/java/com/minelittlepony/unicopia/entity/player/PlayerPhysics.java:25-32 | no air time, thrust 0, both flags false, last position at the origin |
| Physics.PlayerPhysics.ReconcileFlags | src/main/java/com/minelittlepony/unicopia/entity/player/PlayerPhysics.java:75-97 | the reconciliation leaves the state AfterReconcile gives |
| Physics.PlayerPhysics.ReconcilePermission | src/main/java/com/minelittlepony/unicopia/entity/player/PlayerPhysics.java:75-88 | the permission step leaves the flags Permission gives |
| Physics.PlayerPhysics.ReconcileGravity | src/main/java/com/minelittlepony/unicopia/entity/player/PlayerPhysics.java:90-97 | the inverted-gravity step leaves the flags InvertedGravity gives |
| Physics.PlayerPhysics.ApplyThrust | src/main/java/com/minelittlepony/unicopia/entity/player/PlayerPhysics.java:179-185 | the thrust scale becomes ThrustScaleAfter, and the invariant holds |
| Physics.PlayerPhysics.DrainReserves | src/main/java/com/minelittlepony/unicopia/entity/player/PlayerPhysics.java:104-121 | the reserves and the exhaustion follow Drain |
| Physics.PlayerPhysics.ApplyPenalty | src/main/java/com/minelittlepony/unicopia/entity/player/PlayerPhysics.java:108-120 | the reserves and the exhaustion follow Penalty |
| Physics.PlayerPhysics.CountAndDrain | src/main/java/com/minelittlepony/unicopia/entity/player/PlayerPhysics.java:101-121 | the counter grows by one; the reserves are drained iff the old counter passes the gate |
| Physics.PlayerPhysics.FlapStep | src/main/java/com/minelittlepony/unicopia/entity/player/PlayerPhysics.java:123-133 | the fall is cancelled, the thrust decays or is reset by the wing cue, and turbulence is drawn in the rain |
| Physics.PlayerPhysics.GroundStep | src/main/java/com/minelittlepony/unicopia/entity/player/PlayerPhysics.java:136-151 | the counter resets; take-off sets all three flags and applies thrust exactly when the test holds outside creative |
| Physics.PlayerPhysics.Advance | src/main/java/com/minelittlepony/unicopia/entity/player/PlayerPhysics.java:100-154 | the rest of the tick leaves the state Advanced gives, with reserves AdvanceReserves and turbulence AdvanceTurbulence |
| Physics.PlayerPhysics.FlyingBranch | src/main/java/com/minelittlepony/unicopia/entity/player/PlayerPhysics.java:100-134 | the flying branch as Advanced, AdvanceReserves and AdvanceTurbulence say |
| Physics.PlayerPhysics.GroundBranch | src/main/java/com/minelittlepony/unicopia/entity/player/PlayerPhysics.java:135-154 | the other branch as Advanced says, leaving the reserves alone |
| Physics.PlayerPhysics.Tick | src/main/java/com/minelittlepony/unicopia/entity/player/PlayerPhysics.java:62-157 | one tick leaves the state TickState gives (whose properties TickStateFacts proves), the reserves TickReserves gives, and the turbulence TickTurbulence gives, keeping the invariant |
| Physics.PlayerPhysics.UpdateFlightStat | src/main/java/com/minelittlepony/unicopia/entity/player/PlayerPhysics.java:254-267 | the flag and survival flight become what FlightStat gives; nothing else changes |
| Physics.PlayerPhysics.ToNbt | src/main/java/com/minelittlepony/unicopia/entity/player/PlayerPhysics.java:270-275 | the written compound reads back as the three fields and keeps every other key |
| Physics.PlayerPhysics.FromNbt | src/main/java/com/minelittlepony/unicopia/entity/player/PlayerPhysics.java:278-285 | the three fields become what the compound holds, with defaults |
| Physics.Player.constructor | src/main/java/com/minelittlepony/unicopia/entity/player/PlayerPhysics.java:63 | the host entity's flight fields, with no fall distance and no exhaustion |

## Left out

- Velocity integration: `moveFlying`, the velocity half of `applyThrust`, the turbulence impulse, gravity's 0.02 drop and the take-off lift. These are trigonometry and vector maths over floats.
- Pose correction under inverted gravity, at the start of `tick`: it moves the host entity by its dimensions, which are host computations.
- Sounds (wing flap, wind rush, apple rot), game events and `calculateDimensions` after `fromNBT`: host effects.
- Flight.TruncToInt: models the cast over unbounded integers, without Java's saturation at the int range or NaN mapping to 0.
- Physics.PlayerPhysics.Tick: `ticksInAir` is an unbounded integer, so the 32-bit wrap after 2^31 ticks is not modelled.
- Physics.PlayerPhysics.FromNbt: compound values are typed tags; a wrong-typed or missing key gives the default, and NBT's numeric cross-type coercion is not modelled.
- MagicReserves.XpRate: exact over the reals, so the float rounding and the overflow of `Math.pow` for large levels are not modelled.
- The replicated data-tracker behind each bar: a plain field here.
- The `super.toNBT`/`super.fromNBT` fields of the physics base class, and the gravity-modifier attribute lookup: these are not part of this model.
- FruitBearing.RandomTick: item drops when fruit withers (the random choice between rotten fruit and the fruit's own drops) are not modelled, and neither is `super.randomTick` (leaf decay).
- FruitBearing.OnBucked: the fruit block's own world changes are not modelled; its drops are a parameter.
- Codecs, the flammability registry, tinting and `getGrowthSteps` of the fruit block: library or host code; the step count is an input.
- The time-expiring variation cache, `createGroupFromTag` and `bootstrap` of ItemGroupRegistry: library and host registration; the variations are a function parameter.
- The `CodecUtils.xor`/`setOf` machinery behind RacePredicate's codec: not part of this model; only the two decoded shapes are.
- MagicReserves.Bar.Add: `add` and `getPercentFill` are default methods of the `Bar` interface, which is not part of this model. Here `add(d)` is `set(get() + d)` and `getPercentFill()` is `get() / getMax()`.
- MagicReserves.LevelStore.constructor: the pony's level store is not part of this model. It is a non-negative counter, and `canLevelUp` is a predicate of the level given as a parameter.
- The race-gated call sites (the spellbook screen, the projectile-spawn message, the race-change advancement criterion, the jar-insert recipe): callers of the core, not part of this model.
- FruitBearing.Lower: lower-cases ASCII only, which covers the four stage names; Unicode case mapping is not modelled.
- `WITHER_AGE` (FruitBearingBlock.java:40): declared by the block but read nowhere in it; the withering threshold in `randomTick` is the literal 20.
- MagicReserves.ManaContainer.SetMana: the model exposes the mana bar as a plain `Bar`, so a caller could call its `Set` and skip the experience logic. In Java every `getMana().set` dispatches to `XpCollectingBar.set`; the model itself changes mana only through `SetMana` and `AddMana`.
