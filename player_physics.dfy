/** The flight state machine itself (PlayerPhysics.java): an object whose
    fields one tick reconciles, advances and resets, next to the host
    entity's fields it writes and the pony's reserves it drains. Each method
    is proved against the functions of module Flight. */
module Physics {
  import opened Wrappers
  import opened MagicReserves
  import opened Flight

  /** The host entity's fields that flight writes: `abilities.flying`,
      `onGround`, `fallDistance` and the accumulated hunger exhaustion. */
  class Player {
    var flying: bool
    var onGround: bool
    var fallDistance: real
    var exhaustion: real

    constructor (flying: bool, onGround: bool)
      ensures this.flying == flying && this.onGround == onGround
      ensures fallDistance == 0.0 && exhaustion == 0.0
    {
      this.flying := flying;
      this.onGround := onGround;
      fallDistance := 0.0;
      exhaustion := 0.0;
    }
  }

  class PlayerPhysics {
    var ticksInAir: int
    var thrustScale: real
    var isFlyingEither: bool
    var isFlyingSurvival: bool
    var lastPos: Vec3
    const player: Player
    const reserves: ManaContainer

    /** The thrust scale stays in [0, 1], the last position is stored at
        height 0, and the reserves keep their bars in range. */
    ghost predicate Valid()
      reads this, reserves, reserves.Repr()
    {
      0.0 <= thrustScale <= 1.0 && lastPos.y == 0.0 && reserves.Valid()
    }

    function State(): PhysicsState
      reads this, player
    {
      PhysicsState(ticksInAir, thrustScale, isFlyingEither, isFlyingSurvival, lastPos,
                   player.flying, player.onGround, player.fallDistance)
    }

    /** A fresh physics: no air time, no thrust, neither flag, and the last
        position at the origin. */
    constructor (player: Player, reserves: ManaContainer)
      requires reserves.Valid()
      ensures Valid() && this.player == player && this.reserves == reserves
      ensures State() == PhysicsState(0, 0.0, false, false, Vec3(0.0, 0.0, 0.0),
                                      player.flying, player.onGround, player.fallDistance)
    {
      ticksInAir := 0;
      thrustScale := 0.0;
      isFlyingEither := false;
      isFlyingSurvival := false;
      lastPos := Vec3(0.0, 0.0, 0.0);
      this.player := player;
      this.reserves := reserves;
    }

    /** The reconciliation at the start of a tick. */
    method ReconcileFlags(env: Env)
      modifies this, player
      ensures State() == AfterReconcile(old(State()), env)
      ensures player.exhaustion == old(player.exhaustion)
    {
      ReconcilePermission(env);
      ReconcileGravity(env);
    }

    method ReconcilePermission(env: Env)
      modifies this, player
      ensures State() == WithFlags(old(State()), Permission(old(player.flying), old(isFlyingEither), old(player.onGround), env, CanFly(env)))
      ensures player.exhaustion == old(player.exhaustion)
    {
      var creative := env.creativeMode || env.spectator;
      var canFly := CheckCanFly(env.creativeMode, env.spectator, env.spell, env.speciesCanFly);
      if !creative {
        player.flying := player.flying || ((canFly || env.allowFlying) && isFlyingEither);
        if (player.onGround && env.sneaking) || env.touchingWater || env.horizontalCollision || env.verticalCollision {
          player.flying := false;
        }
      }
      isFlyingSurvival := player.flying && !creative;
      isFlyingEither := isFlyingSurvival || (creative && player.flying);
    }

    method ReconcileGravity(env: Env)
      modifies this, player
      ensures State() == WithFlags(old(State()), InvertedGravity(FlagsOf(old(State())), env))
      ensures player.exhaustion == old(player.exhaustion)
    {
      if env.gravityNegative {
        player.onGround := env.solidAboveHead;
        if player.onGround || env.horizontalCollision {
          player.flying := false;
          isFlyingEither := false;
          isFlyingSurvival := false;
        }
      }
    }

    /** applyThrust's update of the thrust scale (its velocity change is not
        modelled). */
    method ApplyThrust(env: Env)
      requires Valid()
      modifies this
      ensures Valid()
      ensures thrustScale == ThrustScaleAfter(old(thrustScale), env)
      ensures ticksInAir == old(ticksInAir) && lastPos == old(lastPos)
      ensures isFlyingEither == old(isFlyingEither) && isFlyingSurvival == old(isFlyingSurvival)
    {
      if env.sneakingChanged && env.sneaking {
        thrustScale := 1.0;
      } else {
        thrustScale := thrustScale * ThrustDecay;
      }
    }

    /** The reserve drain of a flying tick past the gate: the debit, then
        the low-mana penalty. */
    method DrainReserves(horMotion: real, sprinting: bool)
      requires Valid() && 0.0 <= horMotion
      modifies reserves.Repr(), player
      ensures Valid()
      ensures var d := Drain(old(reserves.Snapshot()), horMotion, ticksInAir, sprinting, reserves.levels.canLevelUp);
              reserves.Snapshot() == d.reserves && player.exhaustion == old(player.exhaustion) + d.exhaustion
      ensures player.flying == old(player.flying) && player.onGround == old(player.onGround)
      ensures player.fallDistance == old(player.fallDistance)
    {
      reserves.ValidInBounds();
      reserves.AddMana(Debit(horMotion, reserves.levels.Get()) as real);
      reserves.ValidInBounds();
      ApplyPenalty(horMotion, sprinting);
    }

    method ApplyPenalty(horMotion: real, sprinting: bool)
      requires Valid() && 0.0 <= horMotion
      modifies reserves.exertion, reserves.energy, player
      ensures Valid()
      ensures var d := Penalty(old(reserves.Snapshot()), horMotion, ticksInAir, sprinting);
              reserves.Snapshot() == d.reserves && player.exhaustion == old(player.exhaustion) + d.exhaustion
      ensures player.flying == old(player.flying) && player.onGround == old(player.onGround)
      ensures player.fallDistance == old(player.fallDistance)
    {
      reserves.ValidInBounds();
      if reserves.mana.PercentFill() < 0.2 {
        reserves.AddExertion(2.0);
        reserves.AddEnergy((2 + TruncToInt(horMotion * 5.0)) as real);
        if reserves.mana.PercentFill() < 0.1 && ticksInAir % 10 == 0 {
          var exhaustion := 0.3 * ticksInAir as real / 70.0;
          if sprinting {
            exhaustion := exhaustion * 3.11;
          }
          player.exhaustion := player.exhaustion + exhaustion;
        }
      }
    }

    /** The start of the flying branch: the counter goes up and, past the
        gate, the reserves are drained. */
    method CountAndDrain(horMotion: real, sprinting: bool)
      requires Valid() && 0.0 <= horMotion
      modifies this, reserves.Repr(), player
      ensures Valid()
      ensures ticksInAir == old(ticksInAir) + 1 && thrustScale == old(thrustScale)
      ensures isFlyingEither == old(isFlyingEither) && isFlyingSurvival == old(isFlyingSurvival) && lastPos == old(lastPos)
      ensures player.flying == old(player.flying) && player.onGround == old(player.onGround)
      ensures player.fallDistance == old(player.fallDistance)
      ensures DrainDue(old(ticksInAir), old(reserves.levels.level)) ==>
        var d := Drain(old(reserves.Snapshot()), horMotion, ticksInAir, sprinting, reserves.levels.canLevelUp);
        reserves.Snapshot() == d.reserves && player.exhaustion == old(player.exhaustion) + d.exhaustion
      ensures !DrainDue(old(ticksInAir), old(reserves.levels.level)) ==>
        reserves.Snapshot() == old(reserves.Snapshot()) && player.exhaustion == old(player.exhaustion)
    {
      var level := reserves.levels.Get() + 1;
      var before := ticksInAir;
      ticksInAir := ticksInAir + 1;
      if before > level * 100 {
        DrainReserves(horMotion, sprinting);
      }
    }

    /** The rest of the flying branch: the fall is cancelled, thrust decays
        and the client's wing cue resets it; in the rain the turbulence
        outcome is drawn. */
    method FlapStep(env: Env) returns (turbulence: Option<Turbulence>)
      requires Valid()
      modifies this, player
      ensures Valid()
      ensures thrustScale == if WingCue(ticksInAir, env) then 1.0 else ThrustScaleAfter(old(thrustScale), env)
      ensures ticksInAir == old(ticksInAir) && lastPos == old(lastPos)
      ensures isFlyingEither == old(isFlyingEither) && isFlyingSurvival == old(isFlyingSurvival)
      ensures player.flying == old(player.flying) && player.onGround == old(player.onGround) && player.fallDistance == 0.0
      ensures player.exhaustion == old(player.exhaustion)
      ensures turbulence == if env.raining then Some(ApplyTurbulence(env.thundering, env.rainGradient, env.draws)) else None
    {
      player.fallDistance := 0.0;
      ApplyThrust(env);
      turbulence := None;
      if env.raining {
        turbulence := Some(ApplyTurbulence(env.thundering, env.rainGradient, env.draws));
      }
      if env.isClient && ticksInAir % 20 == 0 && env.speed < 0.29 {
        thrustScale := 1.0;
      }
    }

    /** The other branch: the counter resets and, outside creative mode,
        the take-off test may set all three flags and apply thrust. */
    method GroundStep(env: Env, horMotion: real, motion: real)
      requires Valid()
      modifies this, player
      ensures Valid()
      ensures ticksInAir == 0 && lastPos == old(lastPos)
      ensures var engage := !Creative(env) && EngageGuard(env.velocityY, horMotion, motion);
        && (engage ==> player.flying && isFlyingEither && isFlyingSurvival
                       && thrustScale == ThrustScaleAfter(old(thrustScale), env))
        && (!engage ==> player.flying == old(player.flying) && isFlyingEither == old(isFlyingEither)
                        && isFlyingSurvival == old(isFlyingSurvival) && thrustScale == old(thrustScale))
      ensures player.onGround == old(player.onGround) && player.fallDistance == old(player.fallDistance)
      ensures player.exhaustion == old(player.exhaustion)
    {
      ticksInAir := 0;
      if !(env.creativeMode || env.spectator) {
        if EngageGuard(env.velocityY, horMotion, motion) {
          player.flying := true;
          isFlyingEither := true;
          isFlyingSurvival := true;
          ApplyThrust(env);
        }
      }
    }

    /** Everything after the reconciliation: the flying branch or the
        take-off test, then the new last position. */
    method Advance(env: Env) returns (turbulence: Option<Turbulence>)
      requires Valid()
      modifies this, player, reserves.Repr()
      ensures Valid()
      ensures State() == Advanced(old(State()), env)
      ensures var d := AdvanceReserves(old(State()), old(reserves.Snapshot()), env, reserves.levels.canLevelUp);
        reserves.Snapshot() == d.reserves && player.exhaustion == old(player.exhaustion) + d.exhaustion
      ensures turbulence == AdvanceTurbulence(old(State()), env)
    {
      if IsFlying(isFlyingSurvival, env) {
        turbulence := FlyingBranch(env);
      } else {
        turbulence := None;
        GroundBranch(env);
      }
    }

    method FlyingBranch(env: Env) returns (turbulence: Option<Turbulence>)
      requires Valid() && IsFlying(isFlyingSurvival, env)
      modifies this, player, reserves.Repr()
      ensures Valid()
      ensures State() == Advanced(old(State()), env)
      ensures var d := AdvanceReserves(old(State()), old(reserves.Snapshot()), env, reserves.levels.canLevelUp);
        reserves.Snapshot() == d.reserves && player.exhaustion == old(player.exhaustion) + d.exhaustion
      ensures turbulence == AdvanceTurbulence(old(State()), env)
    {
      var horMotion := HorizontalMotion(env.pos, lastPos);
      CountAndDrain(horMotion, env.sprinting);
      turbulence := FlapStep(env);
      lastPos := Vec3(env.pos.x, 0.0, env.pos.z);
    }

    method GroundBranch(env: Env)
      requires Valid() && !IsFlying(isFlyingSurvival, env)
      modifies this, player
      ensures Valid()
      ensures State() == Advanced(old(State()), env)
      ensures player.exhaustion == old(player.exhaustion)
    {
      var horMotion := HorizontalMotion(env.pos, lastPos);
      var motion := Motion(env.pos, lastPos);
      GroundStep(env, horMotion, motion);
      lastPos := Vec3(env.pos.x, 0.0, env.pos.z);
    }

    /** One tick of the state machine. The new state is TickState of the old
        one; the reserves are drained exactly when the tick flies past the
        gate; the turbulence outcome is reported on a flying tick in the
        rain. */
    method Tick(env: Env) returns (turbulence: Option<Turbulence>)
      requires Valid()
      modifies this, player, reserves.Repr()
      ensures Valid()
      ensures State() == TickState(old(State()), env)
      ensures var d := TickReserves(old(State()), old(reserves.Snapshot()), env, reserves.levels.canLevelUp);
        reserves.Snapshot() == d.reserves && player.exhaustion == old(player.exhaustion) + d.exhaustion
      ensures turbulence == TickTurbulence(old(State()), env)
    {
      reserves.ValidInBounds();
      ReconcileFlags(env);
      turbulence := Advance(env);
    }

    /** updateFlightStat(requested). */
    method UpdateFlightStat(requested: bool, env: Env)
      modifies this, player
      ensures FlightStatResult(player.flying, isFlyingSurvival) ==
        FlightStat(old(player.flying), requested, CanFly(env), env.allowFlying)
      ensures ticksInAir == old(ticksInAir) && thrustScale == old(thrustScale) && lastPos == old(lastPos)
      ensures isFlyingEither == old(isFlyingEither)
      ensures player.onGround == old(player.onGround) && player.fallDistance == old(player.fallDistance)
      ensures player.exhaustion == old(player.exhaustion)
    {
      var canFly := CheckCanFly(env.creativeMode, env.spectator, env.spell, env.speciesCanFly);
      if canFly || env.allowFlying {
        player.flying := player.flying || requested;
        isFlyingSurvival := player.flying;
      } else {
        player.flying := false;
        isFlyingSurvival := false;
      }
    }

    /** toNBT: the compound with the three fields written into it. */
    method ToNbt(c: Compound) returns (r: Compound)
      ensures ReadFlight(r) == Persisted(isFlyingSurvival, isFlyingEither, ticksInAir)
      ensures forall k :: k in c && !IsFlightKey(k) ==> k in r && r[k] == c[k]
    {
      r := c["isFlying" := BoolTag(isFlyingSurvival)];
      r := r["isFlyingEither" := BoolTag(isFlyingEither)];
      r := r["ticksInAir" := IntTag(ticksInAir)];
    }

    /** fromNBT: the three fields read back, defaulting when missing. */
    method FromNbt(c: Compound)
      modifies this
      ensures Persisted(isFlyingSurvival, isFlyingEither, ticksInAir) == ReadFlight(c)
      ensures thrustScale == old(thrustScale) && lastPos == old(lastPos)
    {
      isFlyingSurvival := GetBoolean(c, "isFlying");
      isFlyingEither := GetBoolean(c, "isFlyingEither");
      ticksInAir := GetInt(c, "ticksInAir");
    }
  }
}
