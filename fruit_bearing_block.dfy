/** The growth automaton of fruit-bearing leaves (FruitBearingBlock.java):
    a four-stage cycle with an age counter, advanced by random ticks, which
    places fruit under the leaves while fruiting and removes it when the
    leaves wither. The world is a map from position to block. */
module FruitBearing {
  import opened Wrappers

  /** FruitBearingBlock.Stage, in declaration order. */
  datatype Stage = Idle | Flowering | Fruiting | Withering

  function Ordinal(s: Stage): nat {
    match s
    case Idle => 0
    case Flowering => 1
    case Fruiting => 2
    case Withering => 3
  }

  function FromOrdinal(n: nat): (s: Stage)
    requires n < 4
    ensures Ordinal(s) == n
  {
    if n == 0 then Idle else if n == 1 then Flowering else if n == 2 then Fruiting else Withering
  }

  /** Stage.getNext: `VALUES[(ordinal() + 1) % VALUES.length]`. The contract
      spells out the cycle IDLE -> FLOWERING -> FRUITING -> WITHERING -> IDLE. */
  function Next(s: Stage): (r: Stage)
    ensures s == Idle ==> r == Flowering
    ensures s == Flowering ==> r == Fruiting
    ensures s == Fruiting ==> r == Withering
    ensures s == Withering ==> r == Idle
  {
    FromOrdinal((Ordinal(s) + 1) % 4)
  }

  /** `n` applications of getNext. */
  function NextN(s: Stage, n: nat): Stage {
    if n == 0 then s else Next(NextN(s, n - 1))
  }

  /** Four applications of getNext are the identity. */
  lemma NextFour(s: Stage)
    ensures Next(Next(Next(Next(s)))) == s
  {
  }

  /** Running `n + 4` steps is running `n` steps. */
  lemma {:induction false} NextNShift(s: Stage, n: nat)
    ensures NextN(s, n + 4) == NextN(s, n)
  {
    if n == 0 {
      assert NextN(s, 4) == Next(Next(Next(Next(s))));
      NextFour(s);
    } else {
      NextNShift(s, n - 1);
    }
  }

  /** Only the number of steps modulo 4 matters. */
  lemma {:induction false} NextNPeriodic(s: Stage, n: nat)
    ensures NextN(s, n) == NextN(s, n % 4)
  {
    if n >= 4 {
      var m: nat := n - 4;
      NextNShift(s, m);
      NextNPeriodic(s, m);
      assert m + 4 == n;
      assert m % 4 == n % 4;
    } else {
      assert n % 4 == n;
    }
  }

  /** The upper-case enum constant name, `name()`. */
  function Name(s: Stage): string {
    match s
    case Idle => "IDLE"
    case Flowering => "FLOWERING"
    case Fruiting => "FRUITING"
    case Withering => "WITHERING"
  }

  /** ASCII lower-casing, as `toLowerCase(Locale.ROOT)` does for these names:
      a capital letter becomes its small letter, every other character is
      kept. */
  function LowerChar(c: char): (r: char)
    ensures 'A' <= c <= 'Z' ==> 'a' <= r <= 'z' && r as int - 'a' as int == c as int - 'A' as int
    ensures !('A' <= c <= 'Z') ==> r == c
  {
    if 'A' <= c <= 'Z' then (c as int + 32) as char else c
  }

  /** `toLowerCase(Locale.ROOT)` on a string: character by character. */
  function Lower(str: string): (r: string)
    ensures |r| == |str|
    ensures forall i :: 0 <= i < |str| ==> r[i] == LowerChar(str[i])
  {
    seq(|str|, i requires 0 <= i < |str| => LowerChar(str[i]))
  }

  /** Stage.asString: the lower-cased constant name. */
  function AsString(s: Stage): (r: string)
    ensures s == Idle ==> r == "idle"
    ensures s == Flowering ==> r == "flowering"
    ensures s == Fruiting ==> r == "fruiting"
    ensures s == Withering ==> r == "withering"
  {
    Lower(Name(s))
  }

  /** Reading a stage back by its string name, as a block-state property
      parser looks up enum values. */
  function FromString(str: string): Option<Stage> {
    if str == "idle" then Some(Idle)
    else if str == "flowering" then Some(Flowering)
    else if str == "fruiting" then Some(Fruiting)
    else if str == "withering" then Some(Withering)
    else None
  }

  /** Every stage's string identifies it, so the names are distinct. */
  lemma AsStringRoundTrip(s: Stage, t: Stage)
    ensures FromString(AsString(s)) == Some(s)
    ensures AsString(s) == AsString(t) ==> s == t
  {
  }

  /** The AGE property is AGE_25: values 0 through 25. */
  type Age = a: int | 0 <= a <= 25

  /** `state.cycle(AGE)`: the next value of the property, wrapping 25 to 0. */
  function CycleAge(a: Age): (r: Age)
    ensures a < 25 ==> r == a + 1
    ensures a == 25 ==> r == 0
  {
    (a + 1) % 26
  }

  /** The properties of a fruit-bearing leaves block state that the growth
      logic reads or writes. */
  datatype Leaves = Leaves(stage: Stage, age: Age, persistent: bool)

  /** One growth step of `randomTick`. Fruiting leaves age by one and move on
      (age reset to 0) once the age passes 20; leaves in any other stage reset
      the age and move on at once. */
  function GrowthStep(st: Leaves): (r: Leaves)
    ensures r.persistent == st.persistent
    ensures st.stage == Fruiting ==> r.age <= 20
    ensures st.stage == Fruiting && st.age < 20 ==> r == st.(age := st.age + 1)
    ensures st.stage == Fruiting && 20 <= st.age < 25 ==> r == st.(stage := Withering, age := 0)
    ensures st.stage == Fruiting && st.age == 25 ==> r == st.(age := 0)
    ensures st.stage != Fruiting ==> r == st.(stage := Next(st.stage), age := 0)
  {
    if st.stage == Fruiting then
      var aged := st.(age := CycleAge(st.age));
      if aged.age > 20 then aged.(age := 0, stage := Next(aged.stage)) else aged
    else
      st.(age := 0, stage := Next(st.stage))
  }

  /** Block positions; `down()` lowers y by one. */
  datatype Pos = Pos(x: int, y: int, z: int)

  function Down(p: Pos): (q: Pos)
    ensures q != p
  {
    p.(y := p.y - 1)
  }

  /** The kind of fruit-bearing leaves: which block is its fruit, and whether
      that fruit block reacts to being bucked. */
  datatype TreeKind = TreeKind(fruit: nat, fruitBuckable: bool)

  /** What a world position holds, as far as this logic can tell apart. */
  datatype Block = Air | Tree(kind: TreeKind, leaves: Leaves) | FruitBlock(fruit: nat) | Other(id: nat)

  /** A world position not in the map is air. */
  function BlockAt(w: map<Pos, Block>, p: Pos): Block {
    if p in w then w[p] else Air
  }

  /** Java's `%` truncates toward zero, so its result has the sign of the
      dividend. */
  function JavaRem(a: int, b: int): (r: int)
    requires b > 0
    ensures a >= 0 ==> r == a % b
    ensures a < 0 ==> -b < r <= 0
    ensures (a - r) % b == 0
  {
    if a >= 0 then
      MultipleRem(b, a / b);
      a % b
    else
      var m := (-a) % b;
      MultipleRem(b, -((-a) / b));
      assert a + m == b * -((-a) / b);
      -m
  }

  /** A multiple of `b` leaves no remainder. */
  lemma MultipleRem(b: int, k: int)
    requires b > 0
    ensures (b * k) % b == 0
  {
    var x := b * k;
    var d := k - x / b;
    assert b * d == x % b;
  }

  /** isPositionValidForFruit: `getRenderingSeed(pos) % 3 == 1` with Java's
      signed remainder, which only a positive seed can meet. */
  function IsPositionValidForFruit(seed: int): (ok: bool)
    ensures ok <==> 0 < seed && seed % 3 == 1
  {
    JavaRem(seed, 3) == 1
  }

  /** The world writes of one growth step that has just moved the leaves at
      `pos` to `st`: store the state; place fruit below when now fruiting at a
      valid position over air; remove this tree's fruit below when now
      withering. */
  function StepWorld(w: map<Pos, Block>, kind: TreeKind, pos: Pos, st: Leaves, validFruit: bool): (r: map<Pos, Block>)
    ensures BlockAt(r, pos) == Tree(kind, st)
    ensures forall p :: p != pos && p != Down(pos) ==> BlockAt(r, p) == BlockAt(w, p)
    ensures BlockAt(r, Down(pos)) != BlockAt(w, Down(pos)) ==>
      (st.stage == Fruiting && validFruit && BlockAt(w, Down(pos)) == Air && BlockAt(r, Down(pos)) == FruitBlock(kind.fruit))
      || (st.stage == Withering && BlockAt(w, Down(pos)) == FruitBlock(kind.fruit) && BlockAt(r, Down(pos)) == Air)
    ensures st.stage == Fruiting && validFruit && BlockAt(w, Down(pos)) == Air ==> BlockAt(r, Down(pos)) == FruitBlock(kind.fruit)
    ensures st.stage == Withering && BlockAt(w, Down(pos)) == FruitBlock(kind.fruit) ==> BlockAt(r, Down(pos)) == Air
  {
    var below := Down(pos);
    var placed := w[pos := Tree(kind, st)];
    var fruited := if st.stage == Fruiting && validFruit && BlockAt(placed, below) == Air
      then placed[below := FruitBlock(kind.fruit)] else placed;
    if st.stage == Withering && BlockAt(fruited, below) == FruitBlock(kind.fruit)
    then fruited[below := Air] else fruited
  }

  /** The state of the loop after its first `n` iterations: the world and the
      local `state`. Iteration `i` changes nothing when `advance(i)` (the
      block's `shouldAdvance` draw) is false. */
  function Run(w: map<Pos, Block>, kind: TreeKind, pos: Pos, st: Leaves, validFruit: bool,
               advance: nat -> bool, n: nat): (map<Pos, Block>, Leaves)
  {
    if n == 0 then (w, st)
    else
      var (w', st') := Run(w, kind, pos, st, validFruit, advance, n - 1);
      if advance(n - 1) then
        var next := GrowthStep(st');
        (StepWorld(w', kind, pos, next, validFruit), next)
      else (w', st')
  }

  /** The state alone after `n` iterations. */
  function RunLeaves(st: Leaves, advance: nat -> bool, n: nat): Leaves {
    if n == 0 then st
    else if advance(n - 1) then GrowthStep(RunLeaves(st, advance, n - 1))
    else RunLeaves(st, advance, n - 1)
  }

  /** Whether any of the first `n` iterations advanced. */
  predicate AnyAdvance(advance: nat -> bool, n: nat) {
    exists i :: 0 <= i < n && advance(i)
  }

  /** The loop touches only the leaves' own position and the one below it; it
      ends holding the state RunLeaves computes, stored at `pos` as soon as
      one iteration has advanced. */
  lemma {:induction false} RunFrame(w: map<Pos, Block>, kind: TreeKind, pos: Pos, st: Leaves, validFruit: bool,
                                    advance: nat -> bool, n: nat)
    ensures Run(w, kind, pos, st, validFruit, advance, n).1 == RunLeaves(st, advance, n)
    ensures forall p :: p != pos && p != Down(pos) ==>
      BlockAt(Run(w, kind, pos, st, validFruit, advance, n).0, p) == BlockAt(w, p)
    ensures AnyAdvance(advance, n) ==>
      BlockAt(Run(w, kind, pos, st, validFruit, advance, n).0, pos) == Tree(kind, RunLeaves(st, advance, n))
    ensures !AnyAdvance(advance, n) ==> Run(w, kind, pos, st, validFruit, advance, n).0 == w
  {
    if n > 0 {
      RunFrame(w, kind, pos, st, validFruit, advance, n - 1);
      if !advance(n - 1) && AnyAdvance(advance, n) {
        var i :| 0 <= i < n && advance(i);
        assert i < n - 1;
        assert AnyAdvance(advance, n - 1);
      }
      if AnyAdvance(advance, n - 1) {
        assert AnyAdvance(advance, n);
      }
    }
  }

  /** A tree that has advanced at least once has an age of at most 20, since
      a step in a stage other than fruiting resets it and a fruiting step
      never leaves it above 20. */
  lemma {:induction false} RunAgeBound(st: Leaves, advance: nat -> bool, n: nat)
    requires AnyAdvance(advance, n)
    ensures RunLeaves(st, advance, n).age <= 20
  {
    if !advance(n - 1) {
      var i :| 0 <= i < n && advance(i);
      assert AnyAdvance(advance, n - 1);
      RunAgeBound(st, advance, n - 1);
    }
  }

  /** Iterations whose `shouldAdvance` draw is false change nothing: a run
      of them leaves the state as it was. */
  lemma {:induction false} RunSkipsIdleDraws(st: Leaves, advance: nat -> bool, n: nat)
    requires forall i :: 0 <= i < n ==> !advance(i)
    ensures RunLeaves(st, advance, n) == st
  {
    if n > 0 {
      RunSkipsIdleDraws(st, advance, n - 1);
    }
  }

  /** The world a random tick leaves after `blocks`, given the tick's inputs:
      nothing happens to decaying or persistent leaves or at a light level of
      8 or less; otherwise the loop runs `steps` iterations (none when
      `steps` is not positive). */
  function RandomTickWorld(blocks: map<Pos, Block>, kind: TreeKind, st: Leaves, pos: Pos, decaying: bool,
                           light: int, steps: int, advance: nat -> bool, seed: int): map<Pos, Block>
  {
    if decaying || st.persistent || light <= 8 then blocks
    else Run(blocks, kind, pos, st, IsPositionValidForFruit(seed), advance, if steps > 0 then steps else 0).0
  }

  /** The mutable world the block reads and writes. */
  class World {
    var blocks: map<Pos, Block>

    constructor (blocks: map<Pos, Block>)
      ensures this.blocks == blocks
    {
      this.blocks := blocks;
    }

    function At(p: Pos): Block
      reads this
    {
      BlockAt(blocks, p)
    }

    method SetBlock(p: Pos, b: Block)
      modifies this
      ensures blocks == old(blocks)[p := b]
    {
      blocks := blocks[p := b];
    }
  }

  /** FruitBearingBlock.randomTick. `decaying` is the leaves block's
      `shouldDecay`, `light` the base light level, `steps` the growth-step
      count, `advance(i)` the `shouldAdvance` draw of iteration `i`, and
      `seed` the position's rendering seed. */
  method RandomTick(world: World, kind: TreeKind, state: Leaves, pos: Pos, decaying: bool, light: int,
                    steps: int, advance: nat -> bool, seed: int)
    modifies world
    ensures world.blocks == RandomTickWorld(old(world.blocks), kind, state, pos, decaying, light, steps, advance, seed)
  {
    if decaying || state.persistent {
      return;
    }
    if light > 8 {
      var validFruit := IsPositionValidForFruit(seed);
      ghost var total: nat := if steps > 0 then steps else 0;
      var st := state;
      var remaining := steps;
      var i: nat := 0;
      while remaining > 0
        invariant i == total - (if remaining > 0 then remaining else 0)
        invariant (world.blocks, st) == Run(old(world.blocks), kind, pos, state, validFruit, advance, i)
        decreases remaining
      {
        remaining := remaining - 1;
        if !advance(i) {
          i := i + 1;
          continue;
        }
        if st.stage == Fruiting {
          st := st.(age := CycleAge(st.age));
          if st.age > 20 {
            st := st.(age := 0, stage := Next(st.stage));
          }
        } else {
          st := st.(age := 0, stage := Next(st.stage));
        }
        world.SetBlock(pos, Tree(kind, st));
        var below := Down(pos);
        var stage := st.stage;
        if stage == Fruiting && validFruit {
          if world.At(below) == Air {
            world.SetBlock(below, FruitBlock(kind.fruit));
          }
        }
        var fruitState := world.At(below);
        if stage == Withering && fruitState == FruitBlock(kind.fruit) {
          world.SetBlock(below, Air);
        }
        i := i + 1;
      }
    }
  }

  /** A random tick leaves every position other than the leaves and the one
      below them as it was. */
  lemma RandomTickFrame(blocks: map<Pos, Block>, kind: TreeKind, st: Leaves, pos: Pos, decaying: bool,
                        light: int, steps: int, advance: nat -> bool, seed: int, p: Pos)
    requires p != pos && p != Down(pos)
    ensures BlockAt(RandomTickWorld(blocks, kind, st, pos, decaying, light, steps, advance, seed), p) == BlockAt(blocks, p)
  {
    RunFrame(blocks, kind, pos, st, IsPositionValidForFruit(seed), advance, if steps > 0 then steps else 0);
  }

  /** An item stack handed back by a bucking. */
  datatype ItemStack = ItemStack(item: nat, count: nat)

  /** FruitBearingBlock.onBucked: the leaves go back to IDLE with age 0; when
      the block below is this tree's fruit and that block is buckable, its
      own bucking result (`fruitDrops`) is passed on; otherwise nothing is
      dropped. */
  method OnBucked(world: World, kind: TreeKind, state: Leaves, pos: Pos, fruitDrops: seq<ItemStack>)
    returns (drops: seq<ItemStack>)
    modifies world
    ensures world.blocks == old(world.blocks)[pos := Tree(kind, state.(stage := Idle, age := 0))]
    ensures world.At(pos) == Tree(kind, Leaves(Idle, 0, state.persistent))
    ensures drops == if old(world.At(Down(pos))) == FruitBlock(kind.fruit) && kind.fruitBuckable then fruitDrops else []
    ensures old(world.At(Down(pos))) != FruitBlock(kind.fruit) ==> drops == []
  {
    world.SetBlock(pos, Tree(kind, state.(stage := Idle).(age := 0)));
    var below := Down(pos);
    var fruitState := world.At(below);
    if fruitState == FruitBlock(kind.fruit) && kind.fruitBuckable {
      return fruitDrops;
    }
    return [];
  }
}
