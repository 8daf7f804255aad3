/**
 * Stage 3 of the config loader, from `crates/harness-config/src/merge.rs`: defaults under every
 * profile, a per-mode strip of inapplicable defaults, and each profile's `env` over the top-level
 * one. A collision between env keys is resolved by the domain's hook; the cross-vm hook is from
 * `crates/config/src/lib.rs`.
 */
module Merge {
  import opened Prelude
  import opened Document
  import opened Tables

  const COMMON_KEYS: set<string> :=
    {"mode", "seed", "check_every", "stats", "artifacts_dir", "json_report", "env", "shrink", "shrink_limit"}

  function ModeKeys(mode: string): Option<set<string>> {
    if mode == "fuzz" then Some({"cases", "ops", "kinds", "weights"})
    else if mode == "invariant" then Some({"ops", "kinds", "weights"})
    else if mode == "endurance" then
      Some({"duration", "max_ops", "base_delay", "max_delay", "advance_blocks", "block_jitter",
            "max_consecutive_infra", "heartbeat", "kinds", "weights"})
    else if mode == "scenario" then Some({"steps", "export_world"})
    else None
  }

  predicate KeyAppliesToMode(key: string, mode: string) {
    key in COMMON_KEYS || ModeKeys(mode).None? || key in ModeKeys(mode).value
  }

  // ----- env collisions -----

  /** `hook(key, slot, incoming)` is the new value of a top-level slot an override collides with. */
  type Hook = Resolver<Doc>

  function ReplaceHook(key: string, slot: Doc, incoming: Doc): Doc {
    incoming
  }

  /** The cross-vm hook: `targets` merges label by label, everything else is replaced. */
  function TargetsHook(key: string, slot: Doc, incoming: Doc): Doc {
    if key == "targets" && slot.Table? && incoming.Table? then Table(slot.entries + incoming.entries) else incoming
  }

  /** The label-wise merge as the hook does it: move every incoming entry into the slot. */
  method MergeTargetsEntry(key: string, slot: Doc, incoming: Doc) returns (merged: Doc)
    ensures merged == TargetsHook(key, slot, incoming)
  {
    if key == "targets" && incoming.Table? && slot.Table? {
      var base := MoveEntries(slot.entries, incoming.entries);
      return Table(base);
    }
    merged := incoming;
  }

  lemma ReplaceHookAbsorbs()
    ensures Absorbing(ReplaceHook)
  {
  }

  lemma TargetsHookAbsorbs()
    ensures Absorbing(TargetsHook)
  {
    forall key: string, slot: Doc ensures TargetsHook(key, slot, slot) == slot {
      if slot.Table? { assert slot.entries + slot.entries == slot.entries; }
    }
    forall key: string, slot: Doc, incoming: Doc
      ensures TargetsHook(key, slot, TargetsHook(key, slot, incoming)) == TargetsHook(key, slot, incoming)
    {
      if key == "targets" && slot.Table? && incoming.Table? {
        var once := slot.entries + incoming.entries;
        assert slot.entries + once == once;
      }
    }
  }

  // ----- one profile -----

  function ModeOf(table: Entries): Option<string> {
    match Lookup(table, "mode")
    case Some(Str(mode)) => Some(mode)
    case _ => None
  }

  /** The keys taken from the defaults that the profile's mode has no use for. */
  function Stripped(defaults: Entries, profile: Entries): set<string> {
    var mode := ModeOf(defaults + profile);
    if mode.None? then {}
    else set k | k in defaults && k !in profile && !KeyAppliesToMode(k, mode.value)
  }

  function WithDefaults(defaults: Entries, profile: Entries): Entries {
    (defaults + profile) - Stripped(defaults, profile)
  }

  predicate EnvFits(table: Entries) {
    "env" in table ==> table["env"].Table?
  }

  function OverrideOf(table: Entries): Entries
    requires EnvFits(table)
  {
    if "env" in table then table["env"].entries else map[]
  }

  function WithEnv(table: Entries, env: Entries): Entries {
    if env == map[] then table - {"env"} else table["env" := Table(env)]
  }

  function MergedProfile(hook: Hook, defaults: Entries, topEnv: Entries, profile: Entries): Entries
    requires EnvFits(WithDefaults(defaults, profile))
  {
    var table := WithDefaults(defaults, profile);
    WithEnv(table, MergedEnv(hook, topEnv, OverrideOf(table)))
  }

  /** The stripped keys in the order in which the defaults are listed. */
  function StrippedInOrder(defaults: Entries, keys: seq<string>, profile: Entries): seq<string> {
    Filter(keys, key => key in Stripped(defaults, profile))
  }

  function Unwanted(mode: string): string -> bool {
    key => !KeyAppliesToMode(key, mode)
  }

  lemma StripsInOrder(defaults: Entries, keys: seq<string>, profile: Entries)
    requires ListsAll(keys, defaults.Keys)
    ensures var mode := ModeOf(defaults + profile);
            StrippedInOrder(defaults, keys, profile) ==
            if mode.None? then [] else Filter(Filter(keys, AbsentFrom(profile)), Unwanted(mode.value))
    ensures (set key | key in StrippedInOrder(defaults, keys, profile)) == Stripped(defaults, profile)
  {
    var stripped := (key: string) => key in Stripped(defaults, profile);
    FilterSelects(keys, stripped);
    match ModeOf(defaults + profile)
    case None => FilterNone(keys, stripped);
    case Some(mode) => FilterTwice(keys, AbsentFrom(profile), Unwanted(mode), stripped);
  }

  /** Copy the missing defaults in, then strip those the mode does not know. */
  method ApplyDefaults(defaults: Entries, keys: seq<string>, profile: Entries)
      returns (table: Entries, stripped: seq<string>)
    requires ListsAll(keys, defaults.Keys)
    ensures table == WithDefaults(defaults, profile) && stripped == StrippedInOrder(defaults, keys, profile)
  {
    StripsInOrder(defaults, keys, profile);
    var full, defaulted := FillDefaults(defaults, keys, profile);
    var mode := ModeOf(full);
    if mode.None? {
      assert full - {} == full;
      return full, [];
    }
    table, stripped := StripKeys(full, defaulted, Unwanted(mode.value));
  }

  // ----- the whole document -----

  datatype MergeError =
    | RootNotTable
    | DefaultsNotTable
    | EnvNotTable
    | ProfileNotTable(name: string)
    | ProfileEnvNotTable(name: string)

  datatype Warning = Warning(profile: string, key: string, mode: string)

  /** The table a top-level key holds; a missing key is an empty table. */
  function Section(root: Entries, key: string): Entries {
    match Lookup(root, key)
    case Some(Table(entries)) => entries
    case _ => map[]
  }

  predicate SectionFits(root: Entries, key: string) {
    key in root ==> root[key].Table?
  }

  predicate ProfileFits(root: Entries, name: string)
    requires name in Section(root, "profile")
  {
    var profile := Section(root, "profile")[name];
    profile.Table? && EnvFits(WithDefaults(Section(root, "defaults"), profile.entries))
  }

  predicate Mergeable(doc: Doc) {
    && doc.Table?
    && SectionFits(doc.entries, "defaults") && SectionFits(doc.entries, "env")
    && forall name :: name in Section(doc.entries, "profile") ==> ProfileFits(doc.entries, name)
  }

  /** The first profile, as listed, that does not fit. */
  ghost predicate FirstUnfit(listing: Listing, root: Entries, name: string) {
    var names := ProfileNames(listing, root);
    exists i :: UnfitAt(root, names, i, name)
  }

  ghost predicate UnfitAt(root: Entries, names: seq<string>, i: int, name: string)
    requires forall n :: n in names ==> n in Section(root, "profile")
  {
    && 0 <= i < |names| && names[i] == name && !ProfileFits(root, name)
    && forall k :: 0 <= k < i ==> ProfileFits(root, names[k])
  }

  /** The error is the first that the merge meets. */
  ghost predicate FirstDefect(listing: Listing, doc: Doc, e: MergeError) {
    match e
    case RootNotTable => !doc.Table?
    case DefaultsNotTable => doc.Table? && !SectionFits(doc.entries, "defaults")
    case EnvNotTable => doc.Table? && SectionFits(doc.entries, "defaults") && !SectionFits(doc.entries, "env")
    case ProfileNotTable(name) =>
      && doc.Table? && SectionFits(doc.entries, "defaults") && SectionFits(doc.entries, "env")
      && FirstUnfit(listing, doc.entries, name) && !Section(doc.entries, "profile")[name].Table?
    case ProfileEnvNotTable(name) =>
      && doc.Table? && SectionFits(doc.entries, "defaults") && SectionFits(doc.entries, "env")
      && FirstUnfit(listing, doc.entries, name) && Section(doc.entries, "profile")[name].Table?
  }

  function ProfileResult(hook: Hook, root: Entries, name: string): Doc
    requires name in Section(root, "profile") && ProfileFits(root, name)
  {
    Table(MergedProfile(hook, Section(root, "defaults"), Section(root, "env"), Section(root, "profile")[name].entries))
  }

  function MergedProfiles(hook: Hook, root: Entries): Entries
    requires Mergeable(Table(root))
  {
    map name | name in Section(root, "profile") :: ProfileResult(hook, root, name)
  }

  /** The merged document: `defaults` is consumed, every profile carries its resolved environment. */
  function Merged(hook: Hook, doc: Doc): Doc
    requires Mergeable(doc)
  {
    var root := doc.entries;
    var rest := root - {"defaults"};
    if "profile" in root && root["profile"].Table? then Table(rest["profile" := Table(MergedProfiles(hook, root))])
    else Table(rest)
  }

  /** The raw document the loader rewrites in place. */
  class ConfigDocument {
    var root: Doc

    constructor (doc: Doc)
      ensures root == doc
    {
      root := doc;
    }

    /** Merge defaults and environments into every profile, collecting a warning per stripped key. */
    method MergeInPlace(hook: Hook, listing: Listing) returns (r: Result<seq<Warning>, MergeError>)
      modifies this
      ensures r.Ok? <==> Mergeable(old(root))
      ensures r.Ok? ==> root == Merged(hook, old(root)) && r.value == AllWarnings(listing, old(root).entries)
      ensures r.Err? ==> FirstDefect(listing, old(root), r.error)
    {
      hide WithDefaults, MergedProfiles, ProfileFits, FirstUnfit, AllWarnings;
      var doc := root;
      if !doc.Table? {
        return Err(RootNotTable);
      }
      if !SectionFits(doc.entries, "defaults") {
        return Err(DefaultsNotTable);
      }
      root := Table(doc.entries - {"defaults"});
      if !SectionFits(doc.entries, "env") {
        return Err(EnvNotTable);
      }
      var warnings: seq<Warning> := [];
      if "profile" in doc.entries && doc.entries["profile"].Table? {
        var merged := MergeProfiles(hook, listing, doc.entries);
        if merged.Err? {
          return Err(merged.error);
        }
        warnings := merged.value.1;
        root := Table(root.entries["profile" := Table(merged.value.0)]);
      } else {
        NoProfilesNoWarnings(listing, doc.entries);
      }
      r := Ok(warnings);
    }
  }

  lemma NotATable(root: Entries, name: string)
    requires name in Section(root, "profile") && !Section(root, "profile")[name].Table?
    ensures !ProfileFits(root, name)
  {
  }

  lemma FitsByEnv(root: Entries, name: string, table: Entries)
    requires name in Section(root, "profile") && Section(root, "profile")[name].Table?
    requires table == WithDefaults(Section(root, "defaults"), Section(root, "profile")[name].entries)
    ensures ProfileFits(root, name) <==> EnvFits(table)
  {
  }

  /** Merge the defaults and the top-level environment into one profile. */
  method MergeProfile(hook: Hook, listing: Listing, root: Entries, name: string)
    returns (r: Result<(Doc, seq<Warning>), MergeError>)
    requires name in Section(root, "profile")
    ensures r.Ok? <==> ProfileFits(root, name)
    ensures r.Ok? ==> r.value == (ProfileResult(hook, root, name), ProfileWarnings(listing, root, name))
    ensures r.Err? ==>
              r.error == if Section(root, "profile")[name].Table? then ProfileEnvNotTable(name)
                  else ProfileNotTable(name)
  {
    hide WithDefaults, MergedProfile, Stripped, Section, WithEnv, MergedEnv;
    var defaults, topEnv, profile := Section(root, "defaults"), Section(root, "env"), Section(root, "profile")[name];
    if !profile.Table? {
      NotATable(root, name);
      return Err(ProfileNotTable(name));
    }
    var table, stripped := ApplyDefaults(defaults, listing("defaults", defaults), profile.entries);
    FitsByEnv(root, name, table);
    if !EnvFits(table) {
      return Err(ProfileEnvNotTable(name));
    }
    var env := MergeEnvTables(hook, topEnv, if "env" in table then Some(table["env"].entries) else None);
    MergedProfileIs(hook, defaults, topEnv, profile.entries, table, env);
    r := Ok((Table(WithEnv(table, env)), WarningsFor(name, ModeOf(defaults + profile.entries), stripped)));
  }

  /** The names of the profiles as listed, each once. */
  function ProfileNames(listing: Listing, root: Entries): (names: seq<string>)
    ensures ListsAll(names, Section(root, "profile").Keys)
  {
    listing("profile", Section(root, "profile"))
  }

  /** The first `i` profiles are merged and their warnings collected. */
  ghost predicate MergedUpTo(hook: Hook, listing: Listing, root: Entries, i: nat, done: Entries,
                             warnings: seq<Warning>) {
    var names := ProfileNames(listing, root);
    && i <= |names| && done.Keys == Named(names[..i]) <= Section(root, "profile").Keys
    && (forall n :: n in done ==> ProfileFits(root, n) && done[n] == ProfileResult(hook, root, n))
    && warnings == WarningsUpTo(listing, root, names[..i])
  }

  lemma NothingMerged(hook: Hook, listing: Listing, root: Entries)
    ensures MergedUpTo(hook, listing, root, 0, map[], [])
  {
    AllNamed(ProfileNames(listing, root), Section(root, "profile").Keys);
  }

  lemma WarningsNext(listing: Listing, root: Entries, names: seq<string>, name: string)
    ensures WarningsUpTo(listing, root, names + [name])
         == WarningsUpTo(listing, root, names) + ProfileWarnings(listing, root, name)
  {
    assert (names + [name])[..|names|] == names;
    hide ProfileWarnings;
  }

  lemma OneMoreMerged(hook: Hook, listing: Listing, root: Entries, i: nat, done: Entries, warnings: seq<Warning>)
    requires MergedUpTo(hook, listing, root, i, done, warnings) && i < |ProfileNames(listing, root)|
    requires var name := ProfileNames(listing, root)[i]; name in Section(root, "profile") && ProfileFits(root, name)
    ensures var name := ProfileNames(listing, root)[i];
            MergedUpTo(hook, listing, root, i + 1, done[name := ProfileResult(hook, root, name)],
                       warnings + ProfileWarnings(listing, root, name))
  {
    hide Section, ProfileFits, ProfileResult, ProfileWarnings, Named, ListsAll, ProfileNames, WarningsUpTo;
    var names := ProfileNames(listing, root);
    NextNamed(names, Section(root, "profile").Keys, i);
    WarningsNext(listing, root, names[..i], names[i]);
  }

  lemma AllMerged(hook: Hook, listing: Listing, root: Entries, done: Entries, warnings: seq<Warning>)
    requires SectionFits(root, "defaults") && SectionFits(root, "env")
    requires MergedUpTo(hook, listing, root, |ProfileNames(listing, root)|, done, warnings)
    ensures Mergeable(Table(root)) && done == MergedProfiles(hook, root) && warnings == AllWarnings(listing, root)
  {
    AllNamed(ProfileNames(listing, root), Section(root, "profile").Keys);
    hide Section, ProfileFits, ProfileResult, Named, ListsAll, WarningsUpTo;
  }

  lemma UnfitIsFirst(hook: Hook, listing: Listing, root: Entries, i: nat, done: Entries, warnings: seq<Warning>,
                     e: MergeError)
    requires SectionFits(root, "defaults") && SectionFits(root, "env")
    requires MergedUpTo(hook, listing, root, i, done, warnings) && i < |ProfileNames(listing, root)|
    requires var name := ProfileNames(listing, root)[i];
             && name in Section(root, "profile") && !ProfileFits(root, name)
             && e == if Section(root, "profile")[name].Table? then ProfileEnvNotTable(name) else ProfileNotTable(name)
    ensures !Mergeable(Table(root)) && FirstDefect(listing, Table(root), e)
  {
    var names := ProfileNames(listing, root);
    hide ProfileFits, ProfileResult, WarningsUpTo;
    assert forall k :: 0 <= k < i ==> names[k] in names[..i];
    assert UnfitAt(root, names, i, names[i]);
  }

  /** Each profile in turn. */
  method MergeProfiles(hook: Hook, listing: Listing, root: Entries)
    returns (r: Result<(Entries, seq<Warning>), MergeError>)
    requires SectionFits(root, "defaults") && SectionFits(root, "env")
    ensures r.Ok? <==> Mergeable(Table(root))
    ensures r.Ok? ==> r.value == (MergedProfiles(hook, root), AllWarnings(listing, root))
    ensures r.Err? ==> FirstDefect(listing, Table(root), r.error)
  {
    hide Section, ProfileFits, MergedUpTo, Mergeable, MergedProfiles, AllWarnings, FirstDefect, ListsAll;
    var names := ProfileNames(listing, root);
    var done: Entries, warnings: seq<Warning> := map[], [];
    NothingMerged(hook, listing, root);
    for i := 0 to |names|
      invariant MergedUpTo(hook, listing, root, i, done, warnings)
    {
      NextNamed(names, Section(root, "profile").Keys, i);
      var merged := MergeProfile(hook, listing, root, names[i]);
      if merged.Err? {
        UnfitIsFirst(hook, listing, root, i, done, warnings, merged.error);
        return Err(merged.error);
      }
      OneMoreMerged(hook, listing, root, i, done, warnings);
      done := done[names[i] := merged.value.0];
      warnings := warnings + merged.value.1;
    }
    AllMerged(hook, listing, root, done, warnings);
    r := Ok((done, warnings));
  }

  lemma MergedProfileIs(hook: Hook, defaults: Entries, topEnv: Entries, profile: Entries, table: Entries, env: Entries)
    requires table == WithDefaults(defaults, profile) && EnvFits(table)
    requires env == MergedEnv(hook, topEnv, OverrideOf(table))
    ensures MergedProfile(hook, defaults, topEnv, profile) == WithEnv(table, env)
  {
  }

  /** One warning per stripped key of one profile. */
  function WarningsFor(name: string, mode: Option<string>, stripped: seq<string>): seq<Warning> {
    if mode.None? then []
    else seq(|stripped|, i requires 0 <= i < |stripped| => Warning(name, stripped[i], mode.value))
  }

  /** The warnings about one profile, in the order of the defaults. */
  function ProfileWarnings(listing: Listing, root: Entries, name: string): seq<Warning> {
    var defaults := Section(root, "defaults");
    match Lookup(Section(root, "profile"), name)
    case Some(Table(profile)) =>
      WarningsFor(name, ModeOf(defaults + profile), StrippedInOrder(defaults, listing("defaults", defaults), profile))
    case _ => []
  }

  function WarningsUpTo(listing: Listing, root: Entries, names: seq<string>): seq<Warning> {
    if names == [] then []
    else WarningsUpTo(listing, root, names[..|names| - 1]) + ProfileWarnings(listing, root, names[|names| - 1])
  }

  /** All warnings, profile by profile and then key by key. */
  function AllWarnings(listing: Listing, root: Entries): seq<Warning> {
    WarningsUpTo(listing, root, ProfileNames(listing, root))
  }

  lemma NoProfilesNoWarnings(listing: Listing, root: Entries)
    requires Section(root, "profile") == map[]
    ensures AllWarnings(listing, root) == []
  {
    SomeKey(ProfileNames(listing, root));
  }

  /** The warning names a default key that its profile's mode had no use for. */
  ghost predicate Warns(root: Entries, w: Warning) {
    var defaults, profiles := Section(root, "defaults"), Section(root, "profile");
    && w.profile in profiles && profiles[w.profile].Table?
    && w.key in Stripped(defaults, profiles[w.profile].entries)
    && ModeOf(defaults + profiles[w.profile].entries) == Some(w.mode)
  }

  lemma ProfileWarningsAreDue(listing: Listing, root: Entries, name: string, w: Warning)
    ensures w in ProfileWarnings(listing, root, name) <==> w.profile == name && Warns(root, w)
  {
    var defaults, profiles := Section(root, "defaults"), Section(root, "profile");
    if name in profiles && profiles[name].Table? {
      var profile := profiles[name];
      var keys := listing("defaults", defaults);
      assert ListsAll(keys, defaults.Keys);
      StripsInOrder(defaults, keys, profile.entries);
      var stripped := StrippedInOrder(defaults, keys, profile.entries);
      assert forall key :: key in stripped <==> key in Stripped(defaults, profile.entries);
      hide StrippedInOrder, Stripped;
      if w.profile == name && Warns(root, w) {
        var i :| 0 <= i < |stripped| && stripped[i] == w.key;
        assert ProfileWarnings(listing, root, name)[i] == w;
      }
    }
  }

  lemma {:induction false} WarningsUpToAreDue(listing: Listing, root: Entries, names: seq<string>, w: Warning)
    ensures w in WarningsUpTo(listing, root, names) <==> w.profile in names && Warns(root, w)
  {
    if names != [] {
      var init, last := names[..|names| - 1], names[|names| - 1];
      assert names == init + [last];
      WarningsUpToAreDue(listing, root, init, w);
      ProfileWarningsAreDue(listing, root, last, w);
      hide Warns, ProfileWarnings;
    }
  }

  /** Exactly the defaults of no use to a profile are warned about, whatever the order. */
  lemma WarningsAreDue(listing: Listing, root: Entries, w: Warning)
    ensures w in AllWarnings(listing, root) <==> Warns(root, w)
  {
    WarningsUpToAreDue(listing, root, ProfileNames(listing, root), w);
  }

  /** A warning about an earlier profile, or about an earlier default of the same profile. */
  ghost predicate Precedes(names: seq<string>, keys: seq<string>, v: Warning, w: Warning) {
    exists i, j :: 0 <= i <= j < |names| && names[i] == v.profile && names[j] == w.profile
      && (i < j || exists k, l :: 0 <= k < l < |keys| && keys[k] == v.key && keys[l] == w.key)
  }

  ghost predicate InOrder(names: seq<string>, keys: seq<string>, warnings: seq<Warning>) {
    forall a, b :: 0 <= a < b < |warnings| ==> Precedes(names, keys, warnings[a], warnings[b])
  }

  lemma ProfileWarningsInOrder(listing: Listing, root: Entries, names: seq<string>, i: nat, a: nat, b: nat)
    requires i < |names| && a < b < |ProfileWarnings(listing, root, names[i])|
    ensures var ws := ProfileWarnings(listing, root, names[i]);
            Precedes(names, listing("defaults", Section(root, "defaults")), ws[a], ws[b])
  {
    var defaults := Section(root, "defaults");
    var keys := listing("defaults", defaults);
    var profile := Section(root, "profile")[names[i]].entries;
    var pass := (key: string) => key in Stripped(defaults, profile);
    FilterKeepsOrder(keys, pass, a, b);
    var ws := ProfileWarnings(listing, root, names[i]);
    assert ws[a].key == Filter(keys, pass)[a] && ws[b].key == Filter(keys, pass)[b];
    hide Stripped, Filter, ProfileWarnings;
  }

  lemma AppendInOrder(names: seq<string>, keys: seq<string>, before: seq<Warning>, own: seq<Warning>)
    requires InOrder(names, keys, before) && InOrder(names, keys, own)
    requires forall v, w :: v in before && w in own ==> Precedes(names, keys, v, w)
    ensures InOrder(names, keys, before + own)
  {
    hide Precedes;
    var all := before + own;
    forall a, b | 0 <= a < b < |all| ensures Precedes(names, keys, all[a], all[b]) {
      if a < |before| <= b { assert all[a] in before && all[b] in own; }
    }
  }

  lemma {:induction false} WarningsUpToInOrder(listing: Listing, root: Entries, names: seq<string>, n: nat)
    requires n <= |names|
    ensures InOrder(names, listing("defaults", Section(root, "defaults")), WarningsUpTo(listing, root, names[..n]))
  {
    var keys := listing("defaults", Section(root, "defaults"));
    hide Precedes, ProfileWarnings;
    if n > 0 {
      var before, own := WarningsUpTo(listing, root, names[..n - 1]), ProfileWarnings(listing, root, names[n - 1]);
      assert names[..n][..n - 1] == names[..n - 1];
      assert WarningsUpTo(listing, root, names[..n]) == before + own;
      hide WarningsUpTo;
      WarningsUpToInOrder(listing, root, names, n - 1);
      forall a, b | 0 <= a < b < |own| ensures Precedes(names, keys, own[a], own[b]) {
        ProfileWarningsInOrder(listing, root, names, n - 1, a, b);
      }
      forall v, w | v in before && w in own ensures Precedes(names, keys, v, w) {
        EarlierProfile(listing, root, names, keys, n - 1, v, w);
      }
      AppendInOrder(names, keys, before, own);
    }
  }

  lemma EarlierProfile(listing: Listing, root: Entries, names: seq<string>, keys: seq<string>, i: nat, v: Warning,
                       w: Warning)
    requires i < |names| && v in WarningsUpTo(listing, root, names[..i])
             && w in ProfileWarnings(listing, root, names[i])
    ensures Precedes(names, keys, v, w)
  {
    WarningsUpToAreDue(listing, root, names[..i], v);
    ProfileWarningsAreDue(listing, root, names[i], w);
    hide WarningsUpTo, ProfileWarnings, Warns;
    var j :| 0 <= j < i && names[..i][j] == v.profile;
    assert names[j] == v.profile && names[i] == w.profile;
  }

  /** The warnings come profile by profile and, within a profile, in the order of the defaults. */
  lemma WarningsAreInOrder(listing: Listing, root: Entries)
    ensures InOrder(ProfileNames(listing, root), listing("defaults", Section(root, "defaults")),
                    AllWarnings(listing, root))
  {
    var names := ProfileNames(listing, root);
    WarningsUpToInOrder(listing, root, names, |names|);
    assert names[..|names|] == names;
  }

  // ----- what merging promises -----

  /**
   * Precedence: apart from `env`, each key holds the profile's own value if set, else the default
   * if it applies to the effective mode, else nothing.
   */
  lemma Precedence(hook: Hook, defaults: Entries, topEnv: Entries, profile: Entries, key: string)
    requires EnvFits(WithDefaults(defaults, profile)) && key != "env"
    ensures var mode := if "mode" in profile then ModeOf(profile) else ModeOf(defaults);
            Lookup(MergedProfile(hook, defaults, topEnv, profile), key) ==
            if key in profile then Some(profile[key])
            else if key in defaults && (mode.None? || KeyAppliesToMode(key, mode.value)) then Some(defaults[key])
            else None
  {
  }

  /** Which defaults reach a profile that does not set the key itself, mode by mode. */
  lemma DefaultsReachTheirModes(hook: Hook, defaults: Entries, topEnv: Entries, profile: Entries, key: string)
    requires EnvFits(WithDefaults(defaults, profile)) && key != "env" && key in defaults && key !in profile
    ensures var mode := match Lookup(if "mode" in profile then profile else defaults, "mode")
                        case Some(Str(text)) => Some(text)
                        case _ => None;
            Lookup(MergedProfile(hook, defaults, topEnv, profile), key) == Some(defaults[key]) <==>
              || mode.None?
              || mode.value !in {"fuzz", "invariant", "endurance", "scenario"}
              || key in {"mode", "seed", "check_every", "stats", "artifacts_dir", "json_report", "shrink",
                         "shrink_limit"}
              || (mode.value == "fuzz" && key in {"cases", "ops", "kinds", "weights"})
              || (mode.value == "invariant" && key in {"ops", "kinds", "weights"})
              || (mode.value == "endurance" &&
                    key in {"duration", "max_ops", "base_delay", "max_delay", "advance_blocks", "block_jitter",
                            "max_consecutive_infra", "heartbeat", "kinds", "weights"})
              || (mode.value == "scenario" && key in {"steps", "export_world"})
  {
    Precedence(hook, defaults, topEnv, profile, key);
    hide MergedProfile, WithDefaults;
  }

  /** `targets` tables merge label by label, the incoming label winning; every other collision replaces the slot. */
  lemma TargetsMergeByLabel(key: string, slot: Doc, incoming: Doc, name: string)
    ensures var merged := TargetsHook(key, slot, incoming);
            if key == "targets" && slot.Table? && incoming.Table? then
              && merged.Table?
              && Lookup(merged.entries, name)
              == if name in incoming.entries then Some(incoming.entries[name]) else Lookup(slot.entries, name)
            else merged == incoming
    ensures ReplaceHook(key, slot, incoming) == incoming
  {
  }

  /** Beside the profiles, merging only takes the defaults away; no profile comes or goes. */
  lemma MergeKeepsTheRest(hook: Hook, doc: Doc, key: string)
    requires Mergeable(doc)
    ensures var merged := Merged(hook, doc);
            && merged.Table? && "defaults" !in merged.entries
            && (key !in {"defaults", "profile"} ==> Lookup(merged.entries, key) == Lookup(doc.entries, key))
            && Section(merged.entries, "profile").Keys == Section(doc.entries, "profile").Keys
            && ("profile" in merged.entries <==> "profile" in doc.entries)
            && ("profile" in doc.entries && !doc.entries["profile"].Table? ==>
                  merged.entries["profile"] == doc.entries["profile"])
  {
    hide MergedProfile, WithDefaults;
  }

  /** The effective environment: own keys, top-level keys, and the hook where both have one. */
  lemma EnvPrecedence(hook: Hook, defaults: Entries, topEnv: Entries, profile: Entries, key: string)
    requires EnvFits(WithDefaults(defaults, profile))
    ensures var merged := MergedProfile(hook, defaults, topEnv, profile);
            var own := OverrideOf(if "env" in profile then profile else defaults);
            && EnvFits(merged) && ("env" in merged <==> OverrideOf(merged) != map[])
            && Lookup(OverrideOf(merged), key)
            == match (Lookup(topEnv, key), Lookup(own, key))
               case (Some(slot), Some(incoming)) => Some(hook(key, slot, incoming))
               case (slot, None) => slot
               case (None, incoming) => incoming
  {
    EnvIsNeverStripped(defaults, profile);
  }

  lemma EnvIsNeverStripped(defaults: Entries, profile: Entries)
    ensures Lookup(WithDefaults(defaults, profile), "env")
            == Lookup(if "env" in profile then profile else defaults, "env")
    ensures EnvFits(WithDefaults(defaults, profile)) ==> EnvFits(if "env" in profile then profile else defaults)
  {
    assert "env" in COMMON_KEYS;
  }

  lemma ProfileMergeIsIdempotent(hook: Hook, defaults: Entries, topEnv: Entries, profile: Entries)
    requires Absorbing(hook) && EnvFits(WithDefaults(defaults, profile))
    ensures var once := MergedProfile(hook, defaults, topEnv, profile);
            && Stripped(map[], once) == {} && EnvFits(WithDefaults(map[], once))
            && MergedProfile(hook, map[], topEnv, once) == once
  {
    var table := WithDefaults(defaults, profile);
    hide KeyAppliesToMode, ModeOf;
    assert EnvFits(table);
    hide WithDefaults;
    var env := MergedEnv(hook, topEnv, OverrideOf(table));
    var once := WithEnv(table, env);
    NoDefaultsNoChange(once);
    EnvAbsorbed(hook, topEnv, OverrideOf(table));
    hide MergedEnv;
    assert OverrideOf(once) == env;
    assert WithEnv(once, env) == once;
  }

  lemma NoDefaultsNoChange(profile: Entries)
    ensures Stripped(map[], profile) == {} && WithDefaults(map[], profile) == profile
  {
    assert map[] + profile == profile && profile - {} == profile;
  }

  /** Merging an already merged document changes nothing and warns nothing. */
  lemma MergeIsIdempotent(hook: Hook, listing: Listing, doc: Doc)
    requires Absorbing(hook) && Mergeable(doc)
    ensures var once := Merged(hook, doc);
            Mergeable(once) && Merged(hook, once) == once && AllWarnings(listing, once.entries) == []
  {
    var once := Merged(hook, doc);
    SecondMergeChangesNothing(hook, doc);
    hide Merged, Mergeable, AllWarnings, Warns;
    var warnings := AllWarnings(listing, once.entries);
    if warnings != [] {
      WarningsAreDue(listing, once.entries, warnings[0]);
      assert false;
    }
  }

  lemma SecondMergeChangesNothing(hook: Hook, doc: Doc)
    requires Absorbing(hook) && Mergeable(doc)
    ensures var once := Merged(hook, doc);
            && Mergeable(once) && Merged(hook, once) == once
            && forall w :: !Warns(once.entries, w)
  {
    hide WithDefaults, MergedProfile, Stripped, ModeOf;
    var once := Merged(hook, doc);
    var defaults, topEnv := Section(doc.entries, "defaults"), Section(doc.entries, "env");
    var profiles := Section(doc.entries, "profile");
    assert Section(once.entries, "defaults") == map[] && Section(once.entries, "env") == topEnv;
    forall name | name in profiles
      ensures Section(once.entries, "profile")[name]
              == Table(MergedProfile(hook, defaults, topEnv, profiles[name].entries))
      ensures ProfileFits(once.entries, name)
      ensures Stripped(map[], Section(once.entries, "profile")[name].entries) == {}
      ensures MergedProfile(hook, map[], topEnv, Section(once.entries, "profile")[name].entries)
           == Section(once.entries, "profile")[name].entries
    {
      ProfileMergeIsIdempotent(hook, defaults, topEnv, profiles[name].entries);
    }
    assert once.entries - {"defaults"} == once.entries;
    assert MergedProfiles(hook, once.entries) == MergedProfiles(hook, doc.entries);
  }

  // ----- the whole document, profile by profile -----

  /** The table under a key; a missing key is an empty table. */
  function TableUnder(root: Entries, key: string): Entries
    requires key in root ==> root[key].Table?
  {
    if key in root then root[key].entries else map[]
  }

  /**
   * Where each entry of a merged profile comes from. Apart from `env` it is the profile's own, else
   * the default if it is kept. In `env`, the profile's own table, or else the one of the defaults, is
   * laid over the document's, and the hook decides where both have a key.
   */
  lemma MergedProfileComesFrom(hook: Hook, doc: Doc, name: string, key: string)
    requires Mergeable(doc) && "profile" in doc.entries && doc.entries["profile"].Table?
    requires name in doc.entries["profile"].entries
    ensures var merged, profile := Merged(hook, doc), doc.entries["profile"].entries[name];
            && merged.Table? && "profile" in merged.entries && merged.entries["profile"].Table?
            && name in merged.entries["profile"].entries && merged.entries["profile"].entries[name].Table?
            && profile.Table? && (key in doc.entries && key in {"defaults", "env"} ==> doc.entries[key].Table?)
            && var after, own := merged.entries["profile"].entries[name].entries, profile.entries;
               && (key in own && key != "env" ==> Lookup(after, key) == Some(own[key]))
               && (key !in own && key != "env" && key in after ==>
                     "defaults" in doc.entries && doc.entries["defaults"].Table?
                     && Lookup(doc.entries["defaults"].entries, key) == Some(after[key]))
  {
    var root := doc.entries;
    assert Section(root, "profile") == root["profile"].entries;
    assert ProfileFits(root, name);
    var defaults, own := Section(root, "defaults"), root["profile"].entries[name].entries;
    if key != "env" { Precedence(hook, defaults, Section(root, "env"), own, key); }
    hide MergedProfile, WithDefaults;
  }

  lemma MergedEnvComesFrom(hook: Hook, doc: Doc, name: string, key: string)
    requires Mergeable(doc) && "profile" in doc.entries && doc.entries["profile"].Table?
    requires name in doc.entries["profile"].entries && doc.entries["profile"].entries[name].Table?
    requires SectionFits(doc.entries, "env") && SectionFits(doc.entries, "defaults")
    ensures var root, merged := doc.entries, Merged(hook, doc);
            && Section(merged.entries, "profile").Keys == root["profile"].entries.Keys
            && Section(merged.entries, "profile")[name].Table?
            && var after := Section(merged.entries, "profile")[name].entries;
               var own := root["profile"].entries[name].entries;
               var source := if "env" in own then own else TableUnder(root, "defaults");
               && ("env" in source ==> source["env"].Table?)
               && ("env" in after ==> after["env"].Table? && after["env"].entries != map[])
               && Lookup(TableUnder(after, "env"), key)
               == match (Lookup(TableUnder(root, "env"), key), Lookup(TableUnder(source, "env"), key))
                  case (Some(slot), Some(incoming)) => Some(hook(key, slot, incoming))
                  case (slot, None) => slot
                  case (None, incoming) => incoming
  {
    var root := doc.entries;
    var own := root["profile"].entries[name].entries;
    assert Section(root, "profile") == root["profile"].entries;
    assert ProfileFits(root, name);
    EnvIsNeverStripped(Section(root, "defaults"), own);
    EnvPrecedence(hook, Section(root, "defaults"), Section(root, "env"), own, key);
    hide MergedProfile, WithDefaults;
  }
}
