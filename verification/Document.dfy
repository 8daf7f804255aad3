/** The in-place table operations the merge stage is built from, over any value type. */
module Tables {
  import opened Prelude

  /** How a collision is resolved: the new value of `slot` under `key` when `incoming` arrives. */
  type Resolver<!V> = (string, V, V) -> V

  /** Merging in the slot's own value, or what a merge already produced, changes nothing. */
  ghost predicate Absorbing<V(!new)>(hook: Resolver<V>) {
    && (forall key: string, slot: V :: hook(key, slot, slot) == slot)
    && (forall key: string, slot: V, incoming: V ::
          hook(key, slot, hook(key, slot, incoming)) == hook(key, slot, incoming))
  }

  function MergedEnv<V>(hook: Resolver<V>, top: map<string, V>, over: map<string, V>): map<string, V> {
    map k | k in top.Keys + over.Keys ::
      if k in top && k in over then hook(k, top[k], over[k]) else if k in over then over[k] else top[k]
  }

  lemma EnvAbsorbed<V(!new)>(hook: Resolver<V>, top: map<string, V>, over: map<string, V>)
    requires Absorbing(hook)
    ensures MergedEnv(hook, top, MergedEnv(hook, top, over)) == MergedEnv(hook, top, over)
  {
    var once := MergedEnv(hook, top, over);
    forall k | k in once ensures MergedEnv(hook, top, once)[k] == once[k] {
      if k in top && k in over { assert once[k] == hook(k, top[k], over[k]); }
      if k in top && k !in over { assert hook(k, top[k], top[k]) == top[k]; }
    }
  }

  /** Start from the top-level table and fold the overrides in one by one. */
  method MergeEnvTables<V>(hook: Resolver<V>, top: map<string, V>, over: Option<map<string, V>>)
    returns (merged: map<string, V>)
    ensures merged == MergedEnv(hook, top, if over.Some? then over.value else map[])
  {
    merged := top;
    if over.None? {
      return;
    }
    var overrides := over.value;
    var left := overrides.Keys;
    while left != {}
      invariant left <= overrides.Keys
      invariant merged.Keys == top.Keys + (overrides.Keys - left)
      invariant forall k :: k in merged && k in overrides && k !in left ==>
                  merged[k] == if k in top then hook(k, top[k], overrides[k]) else overrides[k]
      invariant forall k :: k in top && (k !in overrides || k in left) ==> merged[k] == top[k]
      decreases left
    {
      var key :| key in left;
      merged := merged[key := if key in merged then hook(key, merged[key], overrides[key]) else overrides[key]];
      left := left - {key};
    }
  }

  /** Move every incoming entry into the slot. */
  method MoveEntries<V>(slot: map<string, V>, incoming: map<string, V>) returns (base: map<string, V>)
    ensures base == slot + incoming
  {
    base := slot;
    var left := incoming.Keys;
    while left != {}
      invariant left <= incoming.Keys
      invariant base.Keys == slot.Keys + (incoming.Keys - left)
      invariant forall k :: k in base ==> base[k] == if k in incoming && k !in left then incoming[k] else slot[k]
      decreases left
    {
      var k :| k in left;
      base := base[k := incoming[k]];
      left := left - {k};
    }
  }

  /** The keys that pass, in their order. */
  function Filter(keys: seq<string>, pass: string -> bool): seq<string> {
    if keys == [] then []
    else
      var last := keys[|keys| - 1];
      Filter(keys[..|keys| - 1], pass) + if pass(last) then [last] else []
  }

  lemma {:induction false} FilterSelects(keys: seq<string>, pass: string -> bool)
    ensures forall key :: key in Filter(keys, pass) <==> key in keys && pass(key)
  {
    if keys != [] {
      FilterSelects(keys[..|keys| - 1], pass);
      assert keys == keys[..|keys| - 1] + [keys[|keys| - 1]];
    }
  }

  lemma {:induction false} FilterTwice(keys: seq<string>, p: string -> bool, q: string -> bool, both: string -> bool)
    requires forall key :: key in keys ==> both(key) == (p(key) && q(key))
    ensures Filter(Filter(keys, p), q) == Filter(keys, both)
  {
    if keys != [] {
      var init, last := keys[..|keys| - 1], keys[|keys| - 1];
      FilterTwice(init, p, q, both);
      if p(last) {
        assert Filter(keys, p)[..|Filter(keys, p)| - 1] == Filter(init, p);
      } else {
        assert Filter(keys, p) == Filter(init, p);
      }
    }
  }

  lemma FilterNext(keys: seq<string>, key: string, pass: string -> bool)
    ensures Filter(keys + [key], pass) == Filter(keys, pass) + if pass(key) then [key] else []
  {
    assert (keys + [key])[..|keys|] == keys;
  }

  lemma FilterNothing(keys: seq<string>, pass: string -> bool)
    ensures Filter(keys[..0], pass) == []
  {
  }

  lemma {:induction false} FilterNone(keys: seq<string>, pass: string -> bool)
    requires forall key :: key in keys ==> !pass(key)
    ensures Filter(keys, pass) == []
  {
    if keys != [] { FilterNone(keys[..|keys| - 1], pass); }
  }

  /** What passes keeps its order. */
  lemma {:induction false} FilterKeepsOrder(keys: seq<string>, pass: string -> bool, a: nat, b: nat)
    requires a < b < |Filter(keys, pass)|
    ensures exists k, l :: 0 <= k < l < |keys| && keys[k] == Filter(keys, pass)[a] && keys[l] == Filter(keys, pass)[b]
  {
    var init, last := keys[..|keys| - 1], keys[|keys| - 1];
    var kept := Filter(init, pass);
    if b < |kept| {
      FilterKeepsOrder(init, pass, a, b);
      var k, l :| 0 <= k < l < |init| && init[k] == kept[a] && init[l] == kept[b];
      assert keys[k] == Filter(keys, pass)[a] && keys[l] == Filter(keys, pass)[b];
    } else {
      FilterSelects(init, pass);
      assert kept[a] in init;
      var k :| 0 <= k < |init| && init[k] == kept[a];
      assert keys[k] == Filter(keys, pass)[a] && keys[|keys| - 1] == Filter(keys, pass)[b];
    }
  }

  /** The keys a table does not have. */
  function AbsentFrom<V>(table: map<string, V>): string -> bool {
    key => key !in table
  }

  /** `keys` names every member of the set once. */
  ghost predicate ListsAll(keys: seq<string>, all: set<string>) {
    && (forall key :: key in keys <==> key in all)
    && (forall i, j :: 0 <= i < j < |keys| ==> keys[i] != keys[j])
  }

  ghost function Named(keys: seq<string>): set<string> {
    set key | key in keys
  }

  lemma SomeKey(keys: seq<string>)
    ensures keys == [] || exists key :: key in keys
  {
    if keys != [] { assert keys[0] in keys; }
  }

  lemma NextNamed(keys: seq<string>, all: set<string>, i: nat)
    requires ListsAll(keys, all) && i < |keys|
    ensures keys[i] in all && keys[i] !in Named(keys[..i]) && Named(keys[..i + 1]) == Named(keys[..i]) + {keys[i]}
    ensures keys[..i + 1] == keys[..i] + [keys[i]]
  {
  }

  lemma AllNamed(keys: seq<string>, all: set<string>)
    requires ListsAll(keys, all)
    ensures Named(keys) == all && keys[..|keys|] == keys && Named(keys[..0]) == {}
  {
    assert keys[..|keys|] == keys;
  }

  /** Copy in every default the profile does not set itself, listing those copied. */
  method FillDefaults<V>(defaults: map<string, V>, keys: seq<string>, profile: map<string, V>)
    returns (table: map<string, V>, defaulted: seq<string>)
    requires ListsAll(keys, defaults.Keys)
    ensures table == defaults + profile && defaulted == Filter(keys, AbsentFrom(profile))
  {
    hide ListsAll, Named, Filter;
    AllNamed(keys, defaults.Keys);
    FilterNothing(keys, AbsentFrom(profile));
    table, defaulted := profile, [];
    for i := 0 to |keys|
      invariant Named(keys[..i]) <= defaults.Keys
      invariant table.Keys == profile.Keys + Named(keys[..i])
      invariant forall key :: key in table ==> table[key] == if key in profile then profile[key] else defaults[key]
      invariant defaulted == Filter(keys[..i], AbsentFrom(profile))
    {
      var key := keys[i];
      NextNamed(keys, defaults.Keys, i);
      FilterNext(keys[..i], key, AbsentFrom(profile));
      if key !in table {
        table := table[key := defaults[key]];
        defaulted := defaulted + [key];
      }
    }
  }

  /** Remove those of the given keys that are unwanted, listing those removed. */
  method StripKeys<V>(full: map<string, V>, keys: seq<string>, unwanted: string -> bool)
    returns (table: map<string, V>, stripped: seq<string>)
    ensures stripped == Filter(keys, unwanted)
    ensures table == full - (set key | key in stripped)
  {
    table, stripped := full, [];
    for i := 0 to |keys|
      invariant stripped == Filter(keys[..i], unwanted)
      invariant table == full - (set key | key in stripped)
    {
      var key := keys[i];
      assert keys[..i + 1] == keys[..i] + [key];
      FilterNext(keys[..i], key, unwanted);
      if unwanted(key) {
        stripped := stripped + [key];
        table := table - {key};
      }
    }
    assert keys[..|keys|] == keys;
  }
}

/** A configuration document before typed deserialization, whatever its format. */
module Document {
  import opened Prelude
  import opened Tables

  /** Booleans, numbers and dates are opaque here: no loader stage looks inside them. */
  type Scalar(==, !new)

  datatype Doc = Str(text: string) | Arr(items: seq<Doc>) | Table(entries: map<string, Doc>) | Opaque(scalar: Scalar)

  type Entries = map<string, Doc>

  function Lookup(m: Entries, key: string): Option<Doc> {
    if key in m then Some(m[key]) else None
  }

  /**
   * The order in which the table at a path is iterated: sorted or as inserted, as the format has it.
   * Whatever follows that order is stated for every listing.
   */
  type Listing = f: (string, Entries) -> seq<string>
    | forall path: string, table: Entries :: ListsAll(f(path, table), table.Keys)
    ghost witness (path, table: Entries) => AnyOrder(table)

  ghost function AnyOrder(table: Entries): (keys: seq<string>)
    ensures ListsAll(keys, table.Keys)
    decreases |table|
  {
    if table == map[] then []
    else
      var first :| first in table;
      [first] + AnyOrder(table - {first})
  }
}
