/** The item-group bookkeeping of ItemGroupRegistry.java: the static
    REGISTRY map from group to the set of items registered for it, and the
    entries callback of a dynamic group with its re-entrancy flag. Items,
    groups and item stacks are kept abstract. */
module ItemGroups {

  /** The registry after `REGISTRY.computeIfAbsent(group, g -> new HashSet<>()).add(item)`:
      the group is a key afterwards, its set gains the item, and every other
      group keeps its set. */
  function Registered<Item(==), Group(==)>(m: map<Group, set<Item>>, item: Item, group: Group): (r: map<Group, set<Item>>)
    ensures r.Keys == m.Keys + {group}
    ensures item in r[group]
    ensures r[group] == (if group in m then m[group] else {}) + {item}
    ensures forall g :: g in m && g != group ==> r[g] == m[g]
  {
    var members := if group in m then m[group] else {};
    m[group := members + {item}]
  }

  /** Registering the same pair twice is the same as registering it once. */
  lemma RegisterIdempotent<Item, Group>(m: map<Group, set<Item>>, item: Item, group: Group)
    ensures Registered(Registered(m, item, group), item, group) == Registered(m, item, group)
  {
    var once := Registered(m, item, group);
    assert once[group] + {item} == once[group];
  }

  /** The order of two registrations does not matter (set semantics). */
  lemma RegisterCommutes<Item, Group>(m: map<Group, set<Item>>, i1: Item, g1: Group, i2: Item, g2: Group)
    ensures Registered(Registered(m, i1, g1), i2, g2) == Registered(Registered(m, i2, g2), i1, g1)
  {
    var a := Registered(Registered(m, i1, g1), i2, g2);
    var b := Registered(Registered(m, i2, g2), i1, g1);
    assert a.Keys == b.Keys;
    forall g | g in a.Keys
      ensures a[g] == b[g]
    {
      if g == g1 && g == g2 {
        assert a[g] == (if g in m then m[g] else {}) + {i1} + {i2};
        assert b[g] == (if g in m then m[g] else {}) + {i2} + {i1};
      }
    }
  }

  /** The registry of ItemGroupRegistry.REGISTRY. */
  class Registry<Item(==), Group(==)> {
    var groups: map<Group, set<Item>>

    constructor ()
      ensures groups == map[]
    {
      groups := map[];
    }

    /** ItemGroupRegistry.register: records the item under the group and
        returns the item unchanged. */
    method Register(item: Item, group: Group) returns (r: Item)
      modifies this
      ensures r == item
      ensures groups == Registered(old(groups), item, group)
    {
      var members := if group in groups then groups[group] else {};
      groups := groups[group := members + {item}];
      r := item;
    }
  }

  /** The in-order concatenation of every item's variations, as the
      `forEach(item -> list.addAll(getVariations(item)))` loop produces. */
  function Flatten<Item, Stack>(items: seq<Item>, variations: Item -> seq<Stack>): seq<Stack> {
    if |items| == 0 then [] else variations(items[0]) + Flatten(items[1..], variations)
  }

  /** Flattening distributes over concatenation of the item stream. */
  lemma {:induction false} FlattenAppend<Item, Stack>(a: seq<Item>, b: seq<Item>, variations: Item -> seq<Stack>)
    ensures Flatten(a + b, variations) == Flatten(a, variations) + Flatten(b, variations)
  {
    if |a| == 0 {
      assert a + b == b;
    } else {
      assert (a + b)[1..] == a[1..] + b;
      FlattenAppend(a[1..], b, variations);
    }
  }

  /** Every stack produced comes from the variations of some item, and all of
      each item's variations are produced. */
  lemma {:induction false} FlattenContains<Item, Stack>(items: seq<Item>, variations: Item -> seq<Stack>, s: Stack)
    ensures s in Flatten(items, variations) <==> exists k :: 0 <= k < |items| && s in variations(items[k])
  {
    if |items| != 0 {
      FlattenContains(items[1..], variations, s);
      if s in Flatten(items, variations) && s !in variations(items[0]) {
        var k :| 0 <= k < |items[1..]| && s in variations(items[1..][k]);
        assert s in variations(items[k + 1]);
      }
      if exists k :: 0 <= k < |items| && s in variations(items[k]) {
        var k :| 0 <= k < |items| && s in variations(items[k]);
        if k > 0 {
          assert s in variations(items[1..][k - 1]);
        }
      }
    }
  }

  /** The host's entries collector that the callback appends to. */
  class EntryCollector<Stack> {
    var stacks: seq<Stack>

    constructor ()
      ensures stacks == []
    {
      stacks := [];
    }
  }

  /** A group made by `createDynamic`: the one-element `reloading` array
      captured by its entries callback becomes a field. */
  class DynamicGroup<Item, Stack> {
    var reloading: bool

    constructor ()
      ensures !reloading
    {
      reloading := false;
    }

    /** The entries callback. A call that arrives while `reloading` is set
        (a re-entrant call made while variations are being computed) returns
        at once and adds nothing; otherwise the variations of every item the
        supplier yields are appended in order and the flag is clear again. */
    method Entries(list: EntryCollector<Stack>, items: seq<Item>, variations: Item -> seq<Stack>)
      modifies this, list
      ensures old(reloading) ==> reloading && list.stacks == old(list.stacks)
      ensures !old(reloading) ==> !reloading && list.stacks == old(list.stacks) + Flatten(items, variations)
    {
      if reloading {
        return;
      }
      reloading := true;
      var i := 0;
      while i < |items|
        invariant 0 <= i <= |items|
        invariant list.stacks == old(list.stacks) + Flatten(items[..i], variations)
      {
        FlattenAppend(items[..i], [items[i]], variations);
        assert items[..i + 1] == items[..i] + [items[i]];
        list.stacks := list.stacks + variations(items[i]);
        i := i + 1;
      }
      assert items[..i] == items;
      reloading := false;
    }
  }
}
