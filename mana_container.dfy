/** The magic reserves of a pony (ManaContainer.java): four clamped bars
    (energy, exertion, mana, experience) and the level counter, with the
    mana bar's setter turning every spend into experience. Float arithmetic
    is modelled over the reals. */
module MagicReserves {

  /** MathHelper.clamp(value, min, max). */
  function Clamp(v: real, lo: real, hi: real): (r: real)
    requires lo <= hi
    ensures lo <= r <= hi
    ensures lo <= v <= hi ==> r == v
    ensures v < lo ==> r == lo
    ensures hi < v ==> r == hi
  {
    if v < lo then lo else if v < hi then v else hi
  }

  /** Setting a bar to the value it already holds changes nothing. */
  lemma ClampIdempotent(v: real, lo: real, hi: real)
    requires lo <= hi
    ensures Clamp(Clamp(v, lo, hi), lo, hi) == Clamp(v, lo, hi)
  {
  }

  /** The experience earned per point of mana spent at `level`:
      `1 / pow(1000, 1 + level)`, computed by repeated division. */
  function XpRate(level: nat): (r: real)
    ensures 0.0 < r <= 0.001
  {
    if level == 0 then 0.001 else XpRate(level - 1) / 1000.0
  }

  /** Each level makes experience a thousand times harder to earn. */
  lemma XpRateStep(level: nat)
    ensures XpRate(level + 1) * 1000.0 == XpRate(level)
  {
  }

  /** The bar maxima the ManaContainer constructor sets. */
  const EnergyMax: real := 100.0
  const ExertionMax: real := 10.0
  const XpMax: real := 1.0
  const ManaMax: real := 100.0

  /** The values of the four bars and the level. */
  datatype Reserves = Reserves(energy: real, exertion: real, mana: real, xp: real, level: nat)

  /** Every bar within [0, max]. */
  predicate InBounds(r: Reserves) {
    && 0.0 <= r.energy <= EnergyMax
    && 0.0 <= r.exertion <= ExertionMax
    && 0.0 <= r.mana <= ManaMax
    && 0.0 <= r.xp <= XpMax
  }

  /** The reserves a fresh ManaContainer starts with. */
  function Initial(level: nat): (r: Reserves)
    ensures InBounds(r)
    ensures r.mana == ManaMax && r.energy == 0.0 && r.exertion == 0.0 && r.xp == 0.0 && r.level == level
  {
    Reserves(0.0, 0.0, 100.0, 0.0, level)
  }

  /** A spend's experience, `-diff / pow(1000, 1 + level)`, added to the xp
      bar; when the bar then reads full, the level goes up by exactly one
      and the bar is emptied. */
  function CollectXp(r: Reserves, spent: real): (c: Reserves)
    requires InBounds(r) && 0.0 < spent
    ensures InBounds(c)
    ensures c.energy == r.energy && c.exertion == r.exertion && c.mana == r.mana
    ensures c.xp < XpMax
    ensures c.level == r.level + 1 <==> r.xp + spent * XpRate(r.level) >= XpMax
    ensures c.level == r.level || (c.level == r.level + 1 && c.xp == 0.0)
    ensures c.level == r.level ==> c.xp == r.xp + spent * XpRate(r.level)
  {
    var xp := Clamp(r.xp + spent * XpRate(r.level), 0.0, XpMax);
    if xp / XpMax >= 1.0 then r.(xp := 0.0, level := r.level + 1) else r.(xp := xp)
  }

  /** XpCollectingBar.set(v) from the reserves `r`, with `canLevelUp` the
      level store's predicate. A value that does not lower mana is stored
      clamped, with no experience. A lowering value converts the spend into
      experience when the level can still rise, and then debits only
      `-diff / (1 + level)` (with the level as it stands after any level-up)
      before the clamped store. */
  function ManaSet(r: Reserves, v: real, canLevelUp: nat -> bool): (s: Reserves)
    requires InBounds(r)
    ensures InBounds(s)
    ensures s.energy == r.energy && s.exertion == r.exertion
    ensures r.mana <= v ==> s == r.(mana := Clamp(v, 0.0, ManaMax))
    ensures v < r.mana ==> s.level == r.level || (s.level == r.level + 1 && canLevelUp(r.level))
    ensures v < r.mana ==> s.mana == Clamp(r.mana + (v - r.mana) / (1 + s.level) as real, 0.0, ManaMax)
    ensures v < r.mana ==> 0.0 <= s.mana && v <= s.mana <= r.mana
    ensures r.xp < XpMax ==> s.xp < XpMax
    ensures !canLevelUp(r.level) ==> s.xp == r.xp && s.level == r.level
    ensures v < r.mana && canLevelUp(r.level) ==> s.(mana := r.mana) == CollectXp(r, r.mana - v)
  {
    var diff := v - r.mana;
    if diff < 0.0 then
      var collected := if canLevelUp(r.level) then CollectXp(r, -diff) else r;
      var value := collected.mana + diff / (1 + collected.level) as real;
      DiscountedDebit(diff, 1 + collected.level);
      collected.(mana := Clamp(value, 0.0, ManaMax))
    else
      r.(mana := Clamp(v, 0.0, ManaMax))
  }

  /** A debit divided by a factor of at least one is no larger than the
      debit itself, and still a debit. */
  lemma DiscountedDebit(diff: real, k: nat)
    requires diff < 0.0 && 1 <= k
    ensures diff <= diff / k as real < 0.0
  {
    var q := diff / k as real;
    assert q * k as real == diff;
    assert q - diff == q * (1.0 - k as real);
  }

  /** `mana.add(d)` as `set(get() + d)`. */
  function ManaAdd(r: Reserves, d: real, canLevelUp: nat -> bool): (s: Reserves)
    requires InBounds(r)
    ensures InBounds(s)
    ensures s.energy == r.energy && s.exertion == r.exertion
    ensures d < 0.0 ==> r.mana + d <= s.mana <= r.mana
    ensures 0.0 <= d ==> s.xp == r.xp && s.level == r.level && r.mana <= s.mana
  {
    ManaSet(r, r.mana + d, canLevelUp)
  }

  /** At level 0, spending 50 of a full mana bar earns 50 / 1000 = 0.05
      experience and costs the full 50. */
  lemma LevelZeroSpend(canLevelUp: nat -> bool)
    requires canLevelUp(0)
    ensures ManaSet(Reserves(0.0, 0.0, 100.0, 0.0, 0), 50.0, canLevelUp) == Reserves(0.0, 0.0, 50.0, 0.05, 0)
  {
  }

  /** With the xp bar at 0.97, the same spend would take it past full: the
      level rises by exactly one, the bar is emptied, and the debit is already
      halved by the new level. */
  lemma LevelUpOnFullBar(canLevelUp: nat -> bool)
    requires canLevelUp(0)
    ensures ManaSet(Reserves(0.0, 0.0, 100.0, 0.97, 0), 50.0, canLevelUp) == Reserves(0.0, 0.0, 75.0, 0.0, 1)
  {
  }

  /** A part of a positive whole is a fraction in [0, 1], equal to 1 only
      for the whole. */
  lemma FractionBounds(v: real, m: real)
    requires 0.0 < m && 0.0 <= v <= m
    ensures 0.0 <= v / m <= 1.0
    ensures v / m == 1.0 <==> v == m
  {
    var q := v / m;
    assert q * m == v;
    assert (1.0 - q) * m == m - v;
  }

  /** One bar, BarInst: its value (a replicated data-tracker entry upstream)
      is a plain field, kept within [0, max] by the clamping setter. */
  class Bar {
    const max: real
    var value: real

    ghost predicate Valid()
      reads this
    {
      0.0 < max && 0.0 <= value <= max
    }

    /** The tracker entry starts at `initial`; every construction in
        ManaContainer passes a value within range. */
    constructor (max: real, initial: real)
      requires 0.0 < max && 0.0 <= initial <= max
      ensures Valid() && this.max == max && value == initial
    {
      this.max := max;
      value := initial;
    }

    function Get(): real
      reads this
    {
      value
    }

    function GetMax(): real {
      max
    }

    /** BarInst.set: stores `clamp(v, 0, max)`. */
    method Set(v: real)
      requires Valid()
      modifies this
      ensures Valid()
      ensures value == Clamp(v, 0.0, max)
    {
      value := Clamp(v, 0.0, GetMax());
    }

    /** Bar.add, taken to be `set(get() + d)`. */
    method Add(d: real)
      requires Valid()
      modifies this
      ensures Valid()
      ensures value == Clamp(old(value) + d, 0.0, max)
    {
      Set(Get() + d);
    }

    /** Bar.getPercentFill, taken to be `get() / getMax()`: a fraction
        between 0 and 1, reaching 1 exactly when the bar is full. */
    function PercentFill(): (r: real)
      reads this
      requires Valid()
      ensures 0.0 <= r <= 1.0
      ensures r == 1.0 <==> value == max
    {
      FractionBounds(value, max);
      Get() / GetMax()
    }
  }

  /** The pony's level store: a non-negative counter and the predicate
      telling whether it may still rise. */
  class LevelStore {
    var level: nat
    const canLevelUp: nat -> bool

    constructor (level: nat, canLevelUp: nat -> bool)
      ensures this.level == level && this.canLevelUp == canLevelUp
    {
      this.level := level;
      this.canLevelUp := canLevelUp;
    }

    function Get(): nat
      reads this
    {
      level
    }

    function CanLevelUp(): bool
      reads this
    {
      canLevelUp(level)
    }

    method Add(n: nat)
      modifies this
      ensures level == old(level) + n
    {
      level := level + n;
    }
  }

  /** ManaContainer: the four bars and the owner's level store. The mana
      bar's overriding setter, XpCollectingBar.set, is SetMana. */
  class ManaContainer {
    const energy: Bar
    const exertion: Bar
    const xp: Bar
    /** The mana bar's storage. Callers change mana only through SetMana
        and AddMana, which stand for XpCollectingBar's overriding setter;
        calling `mana.Set` directly would skip the experience logic. */
    const mana: Bar
    const levels: LevelStore

    ghost function Repr(): set<object> {
      {energy, exertion, xp, mana, levels}
    }

    ghost predicate Valid()
      reads Repr()
    {
      && energy != exertion && energy != xp && energy != mana
      && exertion != xp && exertion != mana && xp != mana
      && energy.max == EnergyMax && exertion.max == ExertionMax
      && xp.max == XpMax && mana.max == ManaMax
      && energy.Valid() && exertion.Valid() && xp.Valid() && mana.Valid()
    }

    function Snapshot(): Reserves
      reads Repr()
    {
      Reserves(energy.value, exertion.value, mana.value, xp.value, levels.level)
    }

    lemma ValidInBounds()
      requires Valid()
      ensures InBounds(Snapshot())
    {
    }

    /** The bars start at energy 0/100, exertion 0/10, xp 0/1, mana 100/100. */
    constructor (levels: LevelStore)
      ensures Valid() && this.levels == levels
      ensures fresh(energy) && fresh(exertion) && fresh(xp) && fresh(mana)
      ensures Snapshot() == Initial(levels.level)
    {
      energy := new Bar(100.0, 0.0);
      exertion := new Bar(10.0, 0.0);
      xp := new Bar(1.0, 0.0);
      mana := new Bar(100.0, 100.0);
      this.levels := levels;
    }

    /** XpCollectingBar.set. */
    method SetMana(v: real)
      requires Valid()
      modifies Repr()
      ensures Valid()
      ensures Snapshot() == ManaSet(old(Snapshot()), v, levels.canLevelUp)
    {
      var value := v;
      var diff := value - mana.Get();
      if diff < 0.0 {
        if levels.CanLevelUp() {
          CollectXpFrom(-diff);
        }
        value := mana.Get() + diff / (1 + levels.Get()) as real;
      }
      mana.Set(value);
    }

    /** The experience gain of a lowering set: `spent` mana at the current
        level's rate, and a level-up when the bar fills. */
    method CollectXpFrom(spent: real)
      requires Valid() && 0.0 < spent
      modifies xp, levels
      ensures Valid()
      ensures Snapshot() == CollectXp(old(Snapshot()), spent)
    {
      xp.Add(spent * XpRate(levels.Get()));
      if xp.PercentFill() >= 1.0 {
        levels.Add(1);
        xp.Set(0.0);
      }
    }

    /** `getMana().add(d)`, which dispatches to the overriding setter. */
    method AddMana(d: real)
      requires Valid()
      modifies Repr()
      ensures Valid()
      ensures Snapshot() == ManaAdd(old(Snapshot()), d, levels.canLevelUp)
    {
      SetMana(mana.Get() + d);
    }

    /** `getExertion().add(d)`. */
    method AddExertion(d: real)
      requires Valid()
      modifies exertion
      ensures Valid()
      ensures Snapshot() == old(Snapshot()).(exertion := Clamp(old(Snapshot()).exertion + d, 0.0, ExertionMax))
    {
      exertion.Add(d);
    }

    /** `getEnergy().add(d)`. */
    method AddEnergy(d: real)
      requires Valid()
      modifies energy
      ensures Valid()
      ensures Snapshot() == old(Snapshot()).(energy := Clamp(old(Snapshot()).energy + d, 0.0, EnergyMax))
    {
      energy.Add(d);
    }
  }
}
