/** The decision logic of a pony's flight (PlayerPhysics.java) as functions
    of the per-tick facts the host supplies: flight capability, the
    reconciliation of the flight flags, take-off, the air-time counter, the
    thrust scale, the reserve drain, turbulence, flight requests and the
    persisted fields. Floats are modelled over the reals. */
module Flight {
  import opened Wrappers
  import opened MagicReserves

  datatype Vec3 = Vec3(x: real, y: real, z: real)

  /** The active spell as far as flight is concerned: whether it is dead,
      and, when it is a FlightPredicate, the answer of its checkCanFly. */
  datatype Spell = Spell(isDead: bool, flightCheck: Option<bool>)

  /** Why flight is or is not possible this tick. */
  datatype Capability = Denied | GrantedByOverride | GrantedByEffect | GrantedBySpecies

  /** The three sources in priority order: creative or spectator mode; a
      live spell that is a flight predicate; the species. */
  function ResolveCapability(creativeMode: bool, spectator: bool, spell: Option<Spell>, speciesCanFly: bool): (c: Capability)
    ensures c == GrantedByOverride <==> creativeMode || spectator
    ensures c == GrantedByEffect ==> spell.Some? && !spell.value.isDead && spell.value.flightCheck == Some(true)
    ensures c == GrantedBySpecies ==> speciesCanFly && !(spell.Some? && !spell.value.isDead && spell.value.flightCheck.Some?)
  {
    if creativeMode || spectator then GrantedByOverride
    else if spell.Some? && !spell.value.isDead && spell.value.flightCheck.Some? then
      (if spell.value.flightCheck.value then GrantedByEffect else Denied)
    else if speciesCanFly then GrantedBySpecies
    else Denied
  }

  /** checkCanFly. Creative or spectator mode grants flight; otherwise a
      live spell that is a flight predicate decides, and its answer is final;
      otherwise the species decides. */
  function CheckCanFly(creativeMode: bool, spectator: bool, spell: Option<Spell>, speciesCanFly: bool): (ok: bool)
    ensures creativeMode || spectator ==> ok
    ensures ok <==> ResolveCapability(creativeMode, spectator, spell, speciesCanFly) != Denied
    ensures !creativeMode && !spectator && spell.Some? && !spell.value.isDead && spell.value.flightCheck.Some? ==>
      ok == spell.value.flightCheck.value
    ensures !creativeMode && !spectator && !(spell.Some? && !spell.value.isDead && spell.value.flightCheck.Some?) ==>
      ok == speciesCanFly
  {
    if creativeMode || spectator then true
    else if spell.Some? && !spell.value.isDead && spell.value.flightCheck.Some? then spell.value.flightCheck.value
    else speciesCanFly
  }

  /** A live flight-predicate spell overrides the species both ways: the
      species' trait makes no difference to the answer. */
  lemma SpellAnswerIsFinal(spell: Spell, canFly1: bool, canFly2: bool)
    requires !spell.isDead && spell.flightCheck.Some?
    ensures CheckCanFly(false, false, Some(spell), canFly1) == CheckCanFly(false, false, Some(spell), canFly2)
  {
  }

  /** The facts the host supplies for one tick. `sneakingChanged` is the
      pony's sneak-transition flag; `solidAboveHead` tells whether the block
      half a block above the head is not air; `speed` is the length of the
      velocity at the start of the tick; `draws` are the turbulence random
      draws. */
  datatype Env = Env(
    creativeMode: bool, spectator: bool, allowFlying: bool,
    sneaking: bool, sneakingChanged: bool,
    touchingWater: bool, horizontalCollision: bool, verticalCollision: bool,
    gravityNegative: bool, solidAboveHead: bool,
    fallFlying: bool, hasVehicle: bool,
    spell: Option<Spell>, speciesCanFly: bool,
    pos: Vec3, velocityY: real, speed: real, isClient: bool,
    raining: bool, thundering: bool, rainGradient: real, draws: TurbulenceDraws,
    sprinting: bool)

  predicate Creative(env: Env) {
    env.creativeMode || env.spectator
  }

  function CanFly(env: Env): bool {
    CheckCanFly(env.creativeMode, env.spectator, env.spell, env.speciesCanFly)
  }

  /** The contacts that stop survival flight: standing on the ground while
      sneaking, touching water, or colliding. */
  predicate StopsFlight(onGround: bool, env: Env) {
    (onGround && env.sneaking) || env.touchingWater || env.horizontalCollision || env.verticalCollision
  }

  /** The host's `abilities.flying`, the two derived flags and the host's
      on-ground flag after the reconciliation at the start of a tick. */
  datatype Flags = Flags(flying: bool, either: bool, survival: bool, onGround: bool)

  /** The reconciliation of `abilities.flying` with `isFlyingEither` and
      `isFlyingSurvival`, including the inverted-gravity grounding test. */
  function Reconcile(flying: bool, either: bool, onGround: bool, env: Env, canFly: bool): (f: Flags)
    ensures f.either == f.flying
    ensures f.survival ==> f.flying && !Creative(env)
  {
    InvertedGravity(Permission(flying, either, onGround, env, canFly), env)
  }

  /** The permission step: outside creative mode, an earlier flight with
      permission resumes and a stopping contact ends it; then the two
      derived flags follow the host's flag. */
  function Permission(flying: bool, either: bool, onGround: bool, env: Env, canFly: bool): (f: Flags)
    ensures f.either == f.flying && f.onGround == onGround
    ensures f.survival <==> f.flying && !Creative(env)
    ensures Creative(env) ==> f.flying == flying
    ensures !Creative(env) && StopsFlight(onGround, env) ==> !f.flying
    ensures !Creative(env) && !StopsFlight(onGround, env) ==> (f.flying <==> flying || ((canFly || env.allowFlying) && either))
  {
    var creative := Creative(env);
    var flying1 := if creative then flying
      else if StopsFlight(onGround, env) then false
      else flying || ((canFly || env.allowFlying) && either);
    var survival := flying1 && !creative;
    Flags(flying1, survival || (creative && flying1), survival, onGround)
  }

  /** The inverted-gravity step: the pony counts as grounded when the block
      above its head is solid, and being grounded or colliding sideways ends
      every kind of flight. */
  function InvertedGravity(f: Flags, env: Env): (g: Flags)
    ensures !env.gravityNegative ==> g == f
    ensures env.gravityNegative ==> g.onGround == env.solidAboveHead
    ensures env.gravityNegative && (env.solidAboveHead || env.horizontalCollision) ==> !g.flying && !g.either && !g.survival
    ensures env.gravityNegative && !env.solidAboveHead && !env.horizontalCollision ==> g == f.(onGround := false)
  {
    if env.gravityNegative then
      var grounded := env.solidAboveHead;
      if grounded || env.horizontalCollision then Flags(false, false, false, grounded)
      else f.(onGround := grounded)
    else f
  }

  /** What the reconciliation guarantees. Outside creative mode a stopping
      contact clears all three flags; with inverted gravity, the block above
      the head or a horizontal collision does so in any mode. Survival flight
      implies flight and never happens in creative mode; `isFlyingEither`
      always equals the flag. Without contact, an earlier flight with
      permission survives the tick; creative mode leaves the flag alone. */
  lemma ReconcileFacts(flying: bool, either: bool, onGround: bool, env: Env, canFly: bool)
    ensures var f := Reconcile(flying, either, onGround, env, canFly);
      && (!Creative(env) && StopsFlight(onGround, env) ==> !f.flying && !f.either && !f.survival)
      && (env.gravityNegative && (env.solidAboveHead || env.horizontalCollision) ==> !f.flying && !f.either && !f.survival)
      && (f.survival ==> !Creative(env) && f.either)
      && f.either == f.flying
      && f.onGround == (if env.gravityNegative then env.solidAboveHead else onGround)
      && (!Creative(env) && !StopsFlight(onGround, env) && !env.gravityNegative ==>
            f.flying == (flying || ((canFly || env.allowFlying) && either)))
      && (Creative(env) && !env.gravityNegative ==> f.flying == flying && !f.survival)
  {
  }

  /** isFlying: survival flight, not gliding with an elytra and not riding. */
  predicate IsFlying(survival: bool, env: Env): (r: bool)
    ensures r ==> survival
    ensures !env.fallFlying && !env.hasVehicle ==> (r <==> survival)
    ensures env.fallFlying || env.hasVehicle ==> !r
  {
    survival && !env.fallFlying && !env.hasVehicle
  }

  /** getHorizontalMotion: the squared horizontal distance from the last
      position. */
  function HorizontalMotion(pos: Vec3, last: Vec3): (m: real)
    ensures 0.0 <= m
  {
    Square(pos.x - last.x) + Square(pos.z - last.z)
  }

  function Square(a: real): (r: real)
    ensures 0.0 <= r
  {
    a * a
  }

  /** The squared distance from the last position. The last position is
      stored with y = 0, so this adds the square of the current height. */
  function Motion(pos: Vec3, last: Vec3): (m: real)
    ensures last.y == 0.0 ==> m == HorizontalMotion(pos, last) + Square(pos.y)
  {
    Square(pos.x - last.x) + Square(pos.y - last.y) + Square(pos.z - last.z)
  }

  /** The take-off test, as written. Its second disjunct asks for a vertical
      velocity both above 0 and below -0.2, so it never holds and the test
      is simply `vy > 0 && horMotion > 0.2`. */
  function EngageGuard(vy: real, horMotion: real, motion: real): (r: bool)
    ensures r <==> vy > 0.0 && horMotion > 0.2
  {
    vy > 0.0 && (horMotion > 0.2 || (motion > 0.2 && vy < -0.2))
  }

  /** The per-call decay of the thrust scale. */
  const ThrustDecay: real := 0.1889

  /** applyThrust's update of `thrustScale`: back to 1 on the tick the pony
      starts sneaking, otherwise multiplied by 0.1889, so it never leaves
      [0, 1]. */
  function ThrustScaleAfter(scale: real, env: Env): (r: real)
    ensures 0.0 <= scale <= 1.0 ==> 0.0 <= r <= 1.0
    ensures 0.0 <= scale ==> r == 1.0 || r <= scale
  {
    if env.sneakingChanged && env.sneaking then 1.0 else scale * ThrustDecay
  }

  /** The client-side wing-flap cue that resets the thrust scale: every 20th
      air tick when moving slower than 0.29. */
  predicate WingCue(ticksInAir: int, env: Env): (r: bool)
    ensures r ==> env.isClient && ticksInAir % 20 == 0
  {
    env.isClient && ticksInAir % 20 == 0 && env.speed < 0.29
  }

  /** Java's `(int)` cast of a double, which truncates toward zero. */
  function TruncToInt(x: real): (n: int)
    ensures 0.0 <= x ==> 0 <= n && n as real <= x < n as real + 1.0
    ensures x < 0.0 ==> n <= 0 && n as real - 1.0 < x <= n as real
  {
    if x >= 0.0 then x.Floor else -((-x).Floor)
  }

  /** The drain gate: the air-time counter before its increment exceeds
      `(level + 1) * 100`. */
  predicate DrainDue(ticksBefore: int, level: nat): (r: bool)
    ensures r ==> ticksBefore > 100
  {
    ticksBefore > (level + 1) * 100
  }

  /** A higher level only lengthens the grace period: a counter past the
      gate of some level is past the gate of every lower level. */
  lemma DrainGateGrowsWithLevel(ticksBefore: int, lower: nat, higher: nat)
    requires lower <= higher
    ensures DrainDue(ticksBefore, higher) ==> DrainDue(ticksBefore, lower)
  {
  }

  /** The reserves after the drain, whether exhaustion is applied and how
      much. */
  datatype DrainOutcome = DrainOutcome(reserves: Reserves, exhausted: bool, exhaustion: real)

  /** The exhaustion added: `0.3 * ticksInAir / 70`, 3.11 times as much
      while sprinting. */
  function Exhaustion(ticksInAir: int, sprinting: bool): (e: real)
    ensures 0 < ticksInAir ==> 0.0 < e
  {
    var base := 0.3 * ticksInAir as real / 70.0;
    if sprinting then base * 3.11 else base
  }

  /** The mana debit of a flying tick, `(int)(-horMotion * 50 / (level + 1))`:
      never a gain and never more than `horMotion * 50`. */
  function Debit(horMotion: real, level: nat): (d: int)
    requires 0.0 <= horMotion
    ensures -horMotion * 50.0 <= d as real <= 0.0
  {
    DebitBound(horMotion, level + 1);
    TruncToInt(-horMotion * 50.0 / (level + 1) as real)
  }

  /** The low-mana penalty after the debit: below a fifth of full mana,
      exertion gains 2 and energy `2 + (int)(horMotion * 5)`; below a tenth,
      every tenth tick applies exhaustion. Mana, experience and level are
      left alone. */
  function Penalty(spent: Reserves, horMotion: real, ticksInAir: int, sprinting: bool): (d: DrainOutcome)
    requires InBounds(spent) && 0.0 <= horMotion
    ensures InBounds(d.reserves)
    ensures d.reserves.mana == spent.mana && d.reserves.xp == spent.xp && d.reserves.level == spent.level
    ensures spent.mana / ManaMax >= 0.2 ==> d == DrainOutcome(spent, false, 0.0)
    ensures spent.mana / ManaMax < 0.2 ==>
      d.reserves.exertion == Clamp(spent.exertion + 2.0, 0.0, ExertionMax) && spent.energy <= d.reserves.energy
    ensures spent.mana / ManaMax < 0.2 ==>
      d.reserves.energy == Clamp(spent.energy + (2 + TruncToInt(horMotion * 5.0)) as real, 0.0, EnergyMax)
    ensures d.exhausted <==> spent.mana / ManaMax < 0.1 && ticksInAir % 10 == 0
    ensures d.exhaustion == if d.exhausted then Exhaustion(ticksInAir, sprinting) else 0.0
  {
    if spent.mana / ManaMax < 0.2 then
      var tired := spent.(exertion := Clamp(spent.exertion + 2.0, 0.0, ExertionMax));
      var gain := 2 + TruncToInt(horMotion * 5.0);
      var worn := tired.(energy := Clamp(tired.energy + gain as real, 0.0, EnergyMax));
      var exhausted := spent.mana / ManaMax < 0.1 && ticksInAir % 10 == 0;
      DrainOutcome(worn, exhausted, if exhausted then Exhaustion(ticksInAir, sprinting) else 0.0)
    else
      DrainOutcome(spent, false, 0.0)
  }

  /** The reserve drain of a flying tick past the gate, with `ticksInAir`
      already incremented: the debit goes through the experience-collecting
      setter, then the low-mana penalty applies. Mana never rises and falls
      by at most `horMotion * 50`; the level rises by at most one. */
  function Drain(r: Reserves, horMotion: real, ticksInAir: int, sprinting: bool, canLevelUp: nat -> bool): (d: DrainOutcome)
    requires InBounds(r) && 0.0 <= horMotion
    ensures InBounds(d.reserves)
    ensures r.mana - horMotion * 50.0 <= d.reserves.mana <= r.mana
    ensures d.reserves.level == r.level || d.reserves.level == r.level + 1
    ensures d.reserves.mana == Clamp(r.mana + Debit(horMotion, r.level) as real / (1 + d.reserves.level) as real, 0.0, ManaMax)
    ensures d.reserves.mana / ManaMax >= 0.2 ==>
      d.reserves.energy == r.energy && d.reserves.exertion == r.exertion && !d.exhausted
    ensures d.reserves.mana / ManaMax < 0.2 ==>
      d.reserves.exertion == Clamp(r.exertion + 2.0, 0.0, ExertionMax) && r.energy <= d.reserves.energy
    ensures d.reserves.mana / ManaMax < 0.2 ==>
      d.reserves.energy == Clamp(r.energy + (2 + TruncToInt(horMotion * 5.0)) as real, 0.0, EnergyMax)
    ensures d.exhausted <==> d.reserves.mana / ManaMax < 0.1 && ticksInAir % 10 == 0
    ensures d.exhaustion == if d.exhausted then Exhaustion(ticksInAir, sprinting) else 0.0
  {
    Penalty(ManaAdd(r, Debit(horMotion, r.level) as real, canLevelUp), horMotion, ticksInAir, sprinting)
  }

  /** A worked drain at level 0: 0.4 of squared horizontal motion debits
      `(int)(-0.4 * 50 / 1) = -20`, which the mana setter divides by
      `1 + 0` again, so 80 mana becomes 60 and no penalty applies. */
  lemma LevelZeroDrain(canLevelUp: nat -> bool)
    requires canLevelUp(0)
    ensures Drain(Reserves(0.0, 0.0, 80.0, 0.0, 0), 0.4, 200, false, canLevelUp).reserves.mana == 60.0
    ensures !Drain(Reserves(0.0, 0.0, 80.0, 0.0, 0), 0.4, 200, false, canLevelUp).exhausted
  {
  }

  /** The mana debit is never a gain and never more than `horMotion * 50`:
      the divisor `level + 1` is at least 1. */
  lemma DebitBound(horMotion: real, level: nat)
    requires 0.0 <= horMotion && 1 <= level
    ensures -horMotion * 50.0 <= TruncToInt(-horMotion * 50.0 / level as real) as real <= 0.0
  {
    var x := horMotion * 50.0;
    var q := x / level as real;
    assert q * level as real == x;
    assert x - q == q * (level as real - 1.0);
    assert -horMotion * 50.0 / level as real == -q;
  }

  /** The random draws of applyTurbulance: the forward draw in [0, 1) and
      the results of `nextInt(30)`, `nextInt(30)`, `nextInt(40)` and
      `nextInt(60)`. */
  datatype TurbulenceDraws = TurbulenceDraws(forward: real, roll30a: int, roll30b: int, roll40: int, roll60: int)

  /** The outcome of applyTurbulance: the forward value before the cap, the
      value applied to horizontal velocity, the lightning-gust boost to
      vertical velocity and whether the wind sound plays. */
  datatype Turbulence = Turbulence(raw: real, applied: real, gustY: real, windRush: bool)

  function BaseForward(rainGradient: real, d: TurbulenceDraws): real {
    0.015 * d.forward * rainGradient
  }

  /** The three independent multipliers: ×10 for each 1/30 roll and ×100
      for the 1/40 roll, all of which may fire together. */
  function Boosted(f: real, d: TurbulenceDraws): real {
    var f1 := if d.roll30a == 0 then f * 10.0 else f;
    var f2 := if d.roll30b == 0 then f1 * 10.0 else f1;
    if d.roll40 == 0 then f2 * 100.0 else f2
  }

  /** applyTurbulance. The forward value applied never exceeds 4; the wind
      sound and the thunder gust read the value before the cap. */
  function ApplyTurbulence(thundering: bool, rainGradient: real, d: TurbulenceDraws): (t: Turbulence)
    ensures t.raw == Boosted(BaseForward(rainGradient, d), d)
    ensures t.applied <= 4.0
    ensures t.raw <= 4.0 ==> t.applied == t.raw
    ensures t.raw > 4.0 ==> t.applied == 4.0
    ensures t.windRush <==> t.raw >= 1.0
    ensures t.gustY == if thundering && d.roll60 == 0 then t.raw * 3.0 else 0.0
  {
    var forward := Boosted(BaseForward(rainGradient, d), d);
    var gust := if thundering && d.roll60 == 0 then forward * 3.0 else 0.0;
    var windRush := forward >= 1.0;
    var capped := if forward > 4.0 then 4.0 else forward;
    Turbulence(forward, capped, gust, windRush)
  }

  /** With the forward draw in [0, 1) and a rain gradient in [0, 1], the
      unboosted value stays below 0.015, so the wind sound needs the 1/40
      roll or both 1/30 rolls. */
  lemma WindRushNeedsBoost(thundering: bool, rainGradient: real, d: TurbulenceDraws)
    requires 0.0 <= d.forward < 1.0 && 0.0 <= rainGradient <= 1.0
    ensures ApplyTurbulence(thundering, rainGradient, d).windRush ==>
      d.roll40 == 0 || (d.roll30a == 0 && d.roll30b == 0)
  {
    var p := d.forward * rainGradient;
    assert p <= d.forward by {
      assert d.forward - p == d.forward * (1.0 - rainGradient);
    }
    assert BaseForward(rainGradient, d) == 0.015 * p;
  }

  /** All rolls firing at once drives the raw value far past the cap: the
      applied value is 4 while the wind sound still plays. */
  lemma StackedRollsHitCap()
    ensures ApplyTurbulence(false, 1.0, TurbulenceDraws(0.5, 0, 0, 0, 1)) == Turbulence(75.0, 4.0, 0.0, true)
  {
  }

  /** The fields a tick reads and writes: the physics' own (`ticksInAir`,
      `thrustScale`, the two flags, `lastPos`) and the host entity's
      (`abilities.flying`, `onGround`, `fallDistance`). */
  datatype PhysicsState = PhysicsState(
    ticksInAir: int, thrustScale: real, isFlyingEither: bool, isFlyingSurvival: bool, lastPos: Vec3,
    flying: bool, onGround: bool, fallDistance: real)

  function Reconciled(s: PhysicsState, env: Env): Flags {
    Reconcile(s.flying, s.isFlyingEither, s.onGround, env, CanFly(env))
  }

  /** The first phase of a tick: the state with the reconciled flags. */
  function AfterReconcile(s: PhysicsState, env: Env): PhysicsState {
    WithFlags(s, Reconciled(s, env))
  }

  /** The flags a state holds, and a state with other flags. */
  function FlagsOf(s: PhysicsState): Flags {
    Flags(s.flying, s.isFlyingEither, s.isFlyingSurvival, s.onGround)
  }

  function WithFlags(s: PhysicsState, f: Flags): PhysicsState {
    s.(flying := f.flying, isFlyingEither := f.either, isFlyingSurvival := f.survival, onGround := f.onGround)
  }

  /** Whether the tick takes the flying branch. */
  predicate FliesThisTick(s: PhysicsState, env: Env) {
    IsFlying(AfterReconcile(s, env).isFlyingSurvival, env)
  }

  /** Whether the tick takes off: not flying, not creative, and the take-off
      test holds. */
  predicate Engages(s: PhysicsState, env: Env) {
    && !FliesThisTick(s, env) && !Creative(env)
    && EngageGuard(env.velocityY, HorizontalMotion(env.pos, s.lastPos), Motion(env.pos, s.lastPos))
  }

  /** The air-time counter's update: reset on a tick that does not fly,
      one more on a tick that does. */
  function TicksStep(ticks: int, flies: bool): int {
    if flies then ticks + 1 else 0
  }

  /** The second phase of a tick, from the reconciled state: the flying
      branch (counter up, fall cancelled, thrust decayed or reset by the
      wing cue) or the take-off test, then the new last position. */
  function Advanced(s: PhysicsState, env: Env): (r: PhysicsState)
    ensures r.ticksInAir == TicksStep(s.ticksInAir, IsFlying(s.isFlyingSurvival, env))
    ensures r.lastPos == Vec3(env.pos.x, 0.0, env.pos.z) && r.onGround == s.onGround
    ensures !IsFlying(s.isFlyingSurvival, env) ==> r.fallDistance == s.fallDistance
  {
    var last := Vec3(env.pos.x, 0.0, env.pos.z);
    if IsFlying(s.isFlyingSurvival, env) then
      var ticks := s.ticksInAir + 1;
      var scale := if WingCue(ticks, env) then 1.0 else ThrustScaleAfter(s.thrustScale, env);
      s.(ticksInAir := ticks, thrustScale := scale, lastPos := last, fallDistance := 0.0)
    else if !Creative(env) && EngageGuard(env.velocityY, HorizontalMotion(env.pos, s.lastPos), Motion(env.pos, s.lastPos)) then
      s.(ticksInAir := 0, thrustScale := ThrustScaleAfter(s.thrustScale, env),
         isFlyingEither := true, isFlyingSurvival := true, lastPos := last, flying := true)
    else
      s.(ticksInAir := 0, lastPos := last)
  }

  /** The state after one tick (PlayerPhysics.tick without the velocity
      integration and the reserves). */
  function TickState(s: PhysicsState, env: Env): PhysicsState {
    Advanced(AfterReconcile(s, env), env)
  }

  /** The reserves after the second phase: drained when it flies past the
      gate (with the counter already incremented), untouched otherwise. */
  function AdvanceReserves(s: PhysicsState, r: Reserves, env: Env, canLevelUp: nat -> bool): (d: DrainOutcome)
    requires InBounds(r)
  {
    if IsFlying(s.isFlyingSurvival, env) && DrainDue(s.ticksInAir, r.level)
    then Drain(r, HorizontalMotion(env.pos, s.lastPos), s.ticksInAir + 1, env.sprinting, canLevelUp)
    else DrainOutcome(r, false, 0.0)
  }

  /** The reserves after a tick: drained exactly when the tick flies past
      the gate, never gaining mana. */
  function TickReserves(s: PhysicsState, r: Reserves, env: Env, canLevelUp: nat -> bool): (d: DrainOutcome)
    requires InBounds(r)
    ensures InBounds(d.reserves)
    ensures !(FliesThisTick(s, env) && DrainDue(s.ticksInAir, r.level)) ==> d == DrainOutcome(r, false, 0.0)
    ensures FliesThisTick(s, env) && DrainDue(s.ticksInAir, r.level) ==>
      d == Drain(r, HorizontalMotion(env.pos, s.lastPos), s.ticksInAir + 1, env.sprinting, canLevelUp)
    ensures d.reserves.mana <= r.mana
  {
    AdvanceReserves(AfterReconcile(s, env), r, env, canLevelUp)
  }

  /** The turbulence drawn in the second phase: on a flying tick in the
      rain. */
  function AdvanceTurbulence(s: PhysicsState, env: Env): Option<Turbulence> {
    if IsFlying(s.isFlyingSurvival, env) && env.raining
    then Some(ApplyTurbulence(env.thundering, env.rainGradient, env.draws)) else None
  }

  function TickTurbulence(s: PhysicsState, env: Env): Option<Turbulence> {
    AdvanceTurbulence(AfterReconcile(s, env), env)
  }

  /** What one tick guarantees: the thrust scale stays in [0, 1]; the
      counter follows TicksStep; survival flight implies flight and is never
      set in creative mode; take-off happens exactly on a non-flying,
      non-creative tick rising with more than 0.2 of squared horizontal
      motion, and sets all three flags; otherwise the flags are the
      reconciled ones; the last position is stored at height 0; the fall is
      cancelled exactly on a flying tick. */
  lemma TickStateFacts(s: PhysicsState, env: Env)
    ensures var r := TickState(s, env);
      && (0.0 <= s.thrustScale <= 1.0 ==> 0.0 <= r.thrustScale <= 1.0)
      && r.ticksInAir == TicksStep(s.ticksInAir, FliesThisTick(s, env))
      && (r.isFlyingSurvival ==> r.isFlyingEither && !Creative(env))
      && r.isFlyingEither == r.flying
      && (Engages(s, env) <==>
            (!FliesThisTick(s, env) && !Creative(env) && env.velocityY > 0.0 && HorizontalMotion(env.pos, s.lastPos) > 0.2))
      && (Engages(s, env) ==> r.flying && r.isFlyingEither && r.isFlyingSurvival)
      && (!Engages(s, env) ==> r.flying == Reconciled(s, env).flying && r.isFlyingSurvival == Reconciled(s, env).survival)
      && r.lastPos == Vec3(env.pos.x, 0.0, env.pos.z)
      && r.onGround == (if env.gravityNegative then env.solidAboveHead else s.onGround)
      && r.fallDistance == (if FliesThisTick(s, env) then 0.0 else s.fallDistance)
      && (!FliesThisTick(s, env) && !Engages(s, env) ==> r.thrustScale == s.thrustScale)
  {
    ReconcileFacts(s.flying, s.isFlyingEither, s.onGround, env, CanFly(env));
  }

  /** The flying branch is taken exactly on reconciled survival flight
      without an elytra glide or a vehicle, so never in creative or spectator
      mode. Gliding or riding therefore resets the air time, draws no
      turbulence and never drains the reserves. */
  lemma FlightBranchNeedsSurvival(s: PhysicsState, env: Env, r: Reserves, canLevelUp: nat -> bool)
    requires InBounds(r)
    ensures FliesThisTick(s, env) <==> Reconciled(s, env).survival && !env.fallFlying && !env.hasVehicle
    ensures FliesThisTick(s, env) ==> !Creative(env)
    ensures env.fallFlying || env.hasVehicle ==>
      && TickState(s, env).ticksInAir == 0
      && TickTurbulence(s, env) == None
      && TickReserves(s, r, env, canLevelUp) == DrainOutcome(r, false, 0.0)
  {
  }

  /** Outside creative mode, a tick with a stopping contact never takes the
      flying branch, so its air-time counter is 0 afterwards. */
  lemma ContactEndsAirTime(s: PhysicsState, env: Env)
    requires !Creative(env) && StopsFlight(s.onGround, env)
    ensures !FliesThisTick(s, env)
    ensures TickState(s, env).ticksInAir == 0
    ensures !Engages(s, env) ==> !TickState(s, env).flying && !TickState(s, env).isFlyingSurvival
  {
    ReconcileFacts(s.flying, s.isFlyingEither, s.onGround, env, CanFly(env));
  }

  /** Reconciliation clears the flags on a horizontal collision, but the
      take-off test does not look at collisions: moving fast enough while
      rising sets all three flags again in the same tick. */
  lemma CollisionDoesNotBlockTakeOff(s: PhysicsState, env: Env)
    requires !Creative(env) && env.horizontalCollision
    requires env.velocityY > 0.0 && HorizontalMotion(env.pos, s.lastPos) > 0.2
    ensures !Reconciled(s, env).flying && !FliesThisTick(s, env)
    ensures TickState(s, env).flying && TickState(s, env).isFlyingSurvival
  {
    ReconcileFacts(s.flying, s.isFlyingEither, s.onGround, env, CanFly(env));
  }

  /** The counter after ticks whose flying-or-not outcomes are `flights`. */
  function TicksAfter(ticks: int, flights: seq<bool>): int {
    if |flights| == 0 then ticks
    else TicksStep(TicksAfter(ticks, flights[..|flights| - 1]), flights[|flights| - 1])
  }

  /** The number of flying ticks at the end of `flights`. */
  function TrailingFlights(flights: seq<bool>): (n: nat)
    ensures n <= |flights|
  {
    if |flights| == 0 || !flights[|flights| - 1] then 0
    else TrailingFlights(flights[..|flights| - 1]) + 1
  }

  /** The counter counts the flying ticks since the last tick that did not
      fly, on top of its starting value when every tick flew. */
  lemma {:induction false} TicksAfterCountsFlights(ticks: int, flights: seq<bool>)
    ensures TicksAfter(ticks, flights) ==
      if TrailingFlights(flights) == |flights| then ticks + |flights| else TrailingFlights(flights)
  {
    if |flights| > 0 {
      TicksAfterCountsFlights(ticks, flights[..|flights| - 1]);
    }
  }

  /** After a tick that does not fly and `n` flying ticks, the counter reads
      `n`; the next flying tick drains iff `n > (level + 1) * 100`. At level 0
      the 101st flying tick after take-off is the last free one. */
  lemma DrainGrace(ticks: int, flights: seq<bool>, level: nat)
    requires |flights| > 0 && !flights[0]
    requires forall i :: 1 <= i < |flights| ==> flights[i]
    ensures TicksAfter(ticks, flights) == |flights| - 1
    ensures DrainDue(TicksAfter(ticks, flights), level) <==> |flights| - 1 > (level + 1) * 100
  {
    TrailingAllButFirst(flights);
    TicksAfterCountsFlights(ticks, flights);
  }

  lemma {:induction false} TrailingAllButFirst(flights: seq<bool>)
    requires |flights| > 0 && !flights[0]
    requires forall i :: 1 <= i < |flights| ==> flights[i]
    ensures TrailingFlights(flights) == |flights| - 1
  {
    if |flights| > 1 {
      var init := flights[..|flights| - 1];
      assert init[0] == flights[0];
      TrailingAllButFirst(init);
    }
  }

  /** updateFlightStat's result: the host's flying flag and
      `isFlyingSurvival`. */
  datatype FlightStatResult = FlightStatResult(flying: bool, survival: bool)

  /** updateFlightStat(requested): when flight is possible or allowed, the
      request is ORed into the flag and survival flight copies it; otherwise
      both are cleared. */
  function FlightStat(flying: bool, requested: bool, canFly: bool, allowFlying: bool): (r: FlightStatResult)
    ensures r.survival == r.flying
    ensures canFly || allowFlying ==> r.flying == (flying || requested)
    ensures !(canFly || allowFlying) ==> !r.flying
  {
    if canFly || allowFlying then
      var now := flying || requested;
      FlightStatResult(now, now)
    else FlightStatResult(false, false)
  }

  /** A request can only start flight: asking to stop leaves a flying pony
      flying. And survival flight is set even in creative mode, where the
      tick would only ever set it false. */
  lemma FlightRequestOnlyStarts(flying: bool, canFly: bool, allowFlying: bool)
    ensures canFly || allowFlying ==> FlightStat(flying, false, canFly, allowFlying).flying == flying
    ensures FlightStat(flying, true, CheckCanFly(true, false, None, false), false).survival
  {
  }

  /** A value in the host's compound tag. */
  datatype Tag = BoolTag(b: bool) | IntTag(i: int) | OtherTag

  type Compound = map<string, Tag>

  /** `getBoolean`: false when the key is missing or not a boolean. */
  function GetBoolean(c: Compound, key: string): bool {
    key in c && c[key].BoolTag? && c[key].b
  }

  /** `getInt`: 0 when the key is missing or not an integer. */
  function GetInt(c: Compound, key: string): int {
    if key in c && c[key].IntTag? then c[key].i else 0
  }

  /** The three persisted fields. */
  datatype Persisted = Persisted(isFlyingSurvival: bool, isFlyingEither: bool, ticksInAir: int)

  predicate IsFlightKey(key: string) {
    key == "isFlying" || key == "isFlyingEither" || key == "ticksInAir"
  }

  /** toNBT: writes the three fields under "isFlying", "isFlyingEither" and
      "ticksInAir", leaving every other key alone. */
  function WriteFlight(c: Compound, p: Persisted): (r: Compound)
    ensures forall k :: k in c && !IsFlightKey(k) ==> k in r && r[k] == c[k]
    ensures forall k :: k in r ==> k in c || IsFlightKey(k)
  {
    c["isFlying" := BoolTag(p.isFlyingSurvival)]["isFlyingEither" := BoolTag(p.isFlyingEither)]["ticksInAir" := IntTag(p.ticksInAir)]
  }

  /** fromNBT's reads: a field holds something other than its default only
      when its key holds a tag of the right type with that value. */
  function ReadFlight(c: Compound): (p: Persisted)
    ensures p.isFlyingSurvival ==> "isFlying" in c && c["isFlying"] == BoolTag(true)
    ensures p.isFlyingEither ==> "isFlyingEither" in c && c["isFlyingEither"] == BoolTag(true)
    ensures p.ticksInAir != 0 ==> "ticksInAir" in c && c["ticksInAir"] == IntTag(p.ticksInAir)
  {
    Persisted(GetBoolean(c, "isFlying"), GetBoolean(c, "isFlyingEither"), GetInt(c, "ticksInAir"))
  }

  /** Reading back what was written restores the three fields exactly,
      whatever else the compound holds. */
  lemma PersistRoundTrip(c: Compound, p: Persisted)
    ensures ReadFlight(WriteFlight(c, p)) == p
  {
  }

  /** A compound without the fields restores to no flight and no air time. */
  lemma MissingFieldsDefault(c: Compound)
    requires forall k :: k in c ==> !IsFlightKey(k)
    ensures ReadFlight(c) == Persisted(false, false, 0)
  {
    assert "isFlying" !in c && "isFlyingEither" !in c && "ticksInAir" !in c;
  }
}
