/** Stage 5 of the config loader, from `crates/harness-config/src/validate.rs`: suite structure. */
module Validate {
  import opened Prelude
  import Rng

  type Params(==, !new)

  datatype WorldSource = Fresh | Inherit

  datatype SuitePhase = SuitePhase(profile: string, needs: seq<string>, world: WorldSource, params: Option<Params>)

  datatype Suite = Suite(profiles: seq<string>, phases: seq<SuitePhase>, stopOnFailure: bool)

  /** The modes a profile can have; the case count is the only setting structure depends on. */
  datatype Profile = Fuzz(cases: Rng.u64) | Invariant | Endurance | Scenario

  datatype ConfigError =
    | SuiteProfilesAndPhases(suite: string)
    | DuplicatePhaseProfile(suite: string, profile: string)
    | PhaseNeedsNotEarlier(suite: string, phase: string, needed: string)
    | PhaseInheritArity(suite: string, phase: string, needs: nat)
    | PhaseWorldNotSingleSetup(suite: string, phase: string, isDonor: bool)
    | SharedDonor(suite: string, donor: string, first: string, second: string)
    | UnknownSuiteProfile(suite: string, profile: string)

  predicate IsSingleSetup(p: Profile) {
    p.Fuzz? ==> p.cases == 1
  }

  // ----- what a valid pipeline is -----

  predicate Declares(phases: seq<SuitePhase>, before: nat, profile: string)
    requires before <= |phases|
  {
    exists j :: 0 <= j < before && phases[j].profile == profile
  }

  predicate UniqueProfiles(phases: seq<SuitePhase>) {
    forall i, j :: 0 <= i < j < |phases| ==> phases[i].profile != phases[j].profile
  }

  predicate NeedsEarlier(phases: seq<SuitePhase>, i: nat)
    requires i < |phases|
  {
    forall d :: d in phases[i].needs ==> Declares(phases, i, d)
  }

  predicate SingleSetupIfKnown(profiles: map<string, Profile>, name: string) {
    name in profiles ==> IsSingleSetup(profiles[name])
  }

  predicate InheritsProperly(phases: seq<SuitePhase>, profiles: map<string, Profile>, i: nat)
    requires i < |phases|
  {
    phases[i].world.Inherit? ==>
      && |phases[i].needs| == 1
      && SingleSetupIfKnown(profiles, phases[i].profile)
      && SingleSetupIfKnown(profiles, phases[i].needs[0])
  }

  /** The phase this one inherits from, by profile name. */
  predicate InheritsFrom(phase: SuitePhase, donor: string) {
    phase.world.Inherit? && phase.needs != [] && phase.needs[0] == donor
  }

  predicate SharesDonor(phases: seq<SuitePhase>, i: nat, j: nat)
    requires i < j < |phases|
  {
    phases[i].world.Inherit? && phases[i].needs != [] && InheritsFrom(phases[j], phases[i].needs[0])
  }

  predicate ValidPhases(phases: seq<SuitePhase>, profiles: map<string, Profile>) {
    && UniqueProfiles(phases)
    && (forall i :: 0 <= i < |phases| ==> NeedsEarlier(phases, i))
    && (forall i :: 0 <= i < |phases| ==> InheritsProperly(phases, profiles, i))
    && (forall i, j :: 0 <= i < j < |phases| ==> !SharesDonor(phases, i, j))
  }

  // ----- the first defect -----

  predicate UniqueUpTo(phases: seq<SuitePhase>, n: nat) {
    forall i, j :: 0 <= i < j < n && j < |phases| ==> phases[i].profile != phases[j].profile
  }

  predicate NeedsUpTo(phases: seq<SuitePhase>, n: nat) {
    forall i :: 0 <= i < n && i < |phases| ==> NeedsEarlier(phases, i)
  }

  predicate InheritsUpTo(phases: seq<SuitePhase>, profiles: map<string, Profile>, n: nat) {
    && (forall i :: 0 <= i < n && i < |phases| ==> InheritsProperly(phases, profiles, i))
    && (forall i, j :: 0 <= i < j < n && j < |phases| ==> !SharesDonor(phases, i, j))
  }

  /** Phase `i` is the first that runs an earlier phase's profile. */
  predicate RepeatsAt(phases: seq<SuitePhase>, i: nat, profile: string) {
    i < |phases| && UniqueUpTo(phases, i) && phases[i].profile == profile && Declares(phases, i, profile)
  }

  /** Phase `i` is the first with an undeclared need, and its need number `k` is the first such. */
  predicate NeedMissingAt(phases: seq<SuitePhase>, i: nat, k: nat, phase: string, needed: string) {
    && i < |phases| && NeedsUpTo(phases, i) && phases[i].profile == phase
    && k < |phases[i].needs| && phases[i].needs[k] == needed && !Declares(phases, i, needed)
    && forall j :: 0 <= j < k ==> Declares(phases, i, phases[i].needs[j])
  }

  /** Phase `i` is the first that cannot inherit, and `e` is the first thing wrong with it. */
  predicate InheritRefusedAt(phases: seq<SuitePhase>, profiles: map<string, Profile>, i: nat, e: ConfigError) {
    && i < |phases| && InheritsUpTo(phases, profiles, i) && phases[i].world.Inherit?
    && match e
       case PhaseInheritArity(_, phase, n) => phases[i].profile == phase && n == |phases[i].needs| != 1
       case PhaseWorldNotSingleSetup(_, phase, isDonor) =>
         && |phases[i].needs| == 1 && !SingleSetupIfKnown(profiles, phase)
         && if isDonor then phases[i].needs[0] == phase && SingleSetupIfKnown(profiles, phases[i].profile)
            else phases[i].profile == phase
       case SharedDonor(_, donor, first, second) =>
         && InheritsProperly(phases, profiles, i) && phases[i].needs[0] == donor && phases[i].profile == second
         && Feeds(phases, i, donor, first)
       case _ => false
  }

  /** Some earlier phase, called `heir`, inherits from `donor`. */
  predicate Feeds(phases: seq<SuitePhase>, before: nat, donor: string, heir: string)
    requires before <= |phases|
  {
    exists j :: 0 <= j < before && InheritsFrom(phases[j], donor) && phases[j].profile == heir
  }

  /** What the three passes over a suite, one after the other, stop at first. */
  ghost predicate FirstDefect(phases: seq<SuitePhase>, profiles: map<string, Profile>, e: ConfigError) {
    match e
    case DuplicatePhaseProfile(_, profile) => exists i: nat :: RepeatsAt(phases, i, profile)
    case PhaseNeedsNotEarlier(_, phase, needed) =>
      UniqueProfiles(phases) && exists i: nat, k: nat :: NeedMissingAt(phases, i, k, phase, needed)
    case _ =>
      && UniqueProfiles(phases) && NeedsUpTo(phases, |phases|)
      && exists i: nat :: InheritRefusedAt(phases, profiles, i, e)
  }

  lemma RepeatsOnce(phases: seq<SuitePhase>, i: nat, j: nat, p: string, q: string)
    requires RepeatsAt(phases, i, p) && RepeatsAt(phases, j, q)
    ensures i == j
  {
  }

  /** Every need before the first missing one is declared. */
  lemma DeclaredBefore(phases: seq<SuitePhase>, j: nat, m: nat, phase: string, needed: string, i: nat, k: nat)
    requires NeedMissingAt(phases, j, m, phase, needed)
    requires (i < j || (i == j && k < m)) && k < |phases[i].needs|
    ensures Declares(phases, i, phases[i].needs[k])
  {
    if i < j { assert NeedsEarlier(phases, i); }
  }

  lemma MissingOnce(phases: seq<SuitePhase>, i: nat, k: nat, j: nat, m: nat, d: ConfigError, e: ConfigError)
    requires d.PhaseNeedsNotEarlier? && NeedMissingAt(phases, i, k, d.phase, d.needed)
    requires e.PhaseNeedsNotEarlier? && NeedMissingAt(phases, j, m, e.phase, e.needed)
    ensures i == j && k == m
  {
    if i < j || (i == j && k < m) {
      DeclaredBefore(phases, j, m, e.phase, e.needed, i, k);
      assert false;
    }
    if j < i || (i == j && m < k) {
      DeclaredBefore(phases, i, k, d.phase, d.needed, j, m);
      assert false;
    }
  }

  lemma RefusedOnce(phases: seq<SuitePhase>, profiles: map<string, Profile>, i: nat, j: nat, d: ConfigError,
                    e: ConfigError)
    requires InheritRefusedAt(phases, profiles, i, d) && InheritRefusedAt(phases, profiles, j, e)
    ensures i <= j
  {
    if j < i {
      assert InheritsProperly(phases, profiles, j);
      assert e.SharedDonor?;
      var k :| 0 <= k < j && InheritsFrom(phases[k], e.donor) && phases[k].profile == e.first;
      assert SharesDonor(phases, k, j);
      assert false;
    }
  }

  /** A suite has one first defect: the error a check reports is determined by the suite. */
  lemma FirstDefectIsUnique(phases: seq<SuitePhase>, profiles: map<string, Profile>, d: ConfigError, e: ConfigError)
    requires FirstDefect(phases, profiles, d) && FirstDefect(phases, profiles, e) && d.suite == e.suite
    ensures d == e
  {
    if d.DuplicatePhaseProfile? || e.DuplicatePhaseProfile? {
      RepeatMeansRepeat(phases, profiles, d);
      RepeatMeansRepeat(phases, profiles, e);
      var i: nat :| RepeatsAt(phases, i, d.profile);
      var j: nat :| RepeatsAt(phases, j, e.profile);
      RepeatsOnce(phases, i, j, d.profile, e.profile);
    } else if d.PhaseNeedsNotEarlier? || e.PhaseNeedsNotEarlier? {
      MissingMeansMissing(phases, profiles, d);
      MissingMeansMissing(phases, profiles, e);
      var i: nat, k: nat :| NeedMissingAt(phases, i, k, d.phase, d.needed);
      var j: nat, m: nat :| NeedMissingAt(phases, j, m, e.phase, e.needed);
      MissingOnce(phases, i, k, j, m, d, e);
    } else {
      var i: nat :| InheritRefusedAt(phases, profiles, i, d);
      var j: nat :| InheritRefusedAt(phases, profiles, j, e);
      RefusedOnce(phases, profiles, i, j, d, e);
      RefusedOnce(phases, profiles, j, i, e, d);
      OneRefusal(phases, profiles, i, d, e);
    }
  }

  /** A suite that repeats a profile has no other first defect. */
  lemma RepeatMeansRepeat(phases: seq<SuitePhase>, profiles: map<string, Profile>, e: ConfigError)
    requires FirstDefect(phases, profiles, e)
    ensures e.DuplicatePhaseProfile? <==> !UniqueProfiles(phases)
  {
    if e.DuplicatePhaseProfile? {
      var i: nat :| RepeatsAt(phases, i, e.profile);
      assert Declares(phases, i, e.profile);
    }
  }

  lemma MissingMeansMissing(phases: seq<SuitePhase>, profiles: map<string, Profile>, e: ConfigError)
    requires FirstDefect(phases, profiles, e)
    ensures e.PhaseNeedsNotEarlier? <==> UniqueProfiles(phases) && !NeedsUpTo(phases, |phases|)
  {
    RepeatMeansRepeat(phases, profiles, e);
    if e.PhaseNeedsNotEarlier? {
      var i: nat, k: nat :| NeedMissingAt(phases, i, k, e.phase, e.needed);
      assert phases[i].needs[k] in phases[i].needs;
      assert !NeedsEarlier(phases, i);
    }
  }

  lemma OneRefusal(phases: seq<SuitePhase>, profiles: map<string, Profile>, i: nat, d: ConfigError, e: ConfigError)
    requires InheritRefusedAt(phases, profiles, i, d) && InheritRefusedAt(phases, profiles, i, e) && d.suite == e.suite
    ensures d == e
  {
    if d.SharedDonor? && e.SharedDonor? {
      var j :| 0 <= j < i && InheritsFrom(phases[j], d.donor) && phases[j].profile == d.first;
      var k :| 0 <= k < i && InheritsFrom(phases[k], d.donor) && phases[k].profile == e.first;
      assert j < k ==> !SharesDonor(phases, j, k);
      assert k < j ==> !SharesDonor(phases, k, j);
    }
  }

  // ----- the validator -----

  /** No two phases of a suite run the same profile. */
  method CheckUnique(suite: string, phases: seq<SuitePhase>) returns (e: Option<ConfigError>)
    ensures e.None? <==> UniqueProfiles(phases)
    ensures e.Some? ==>
              && e.value.DuplicatePhaseProfile? && e.value.suite == suite
              && exists i: nat :: RepeatsAt(phases, i, e.value.profile)
  {
    var seen: set<string> := {};
    for i := 0 to |phases|
      invariant forall p :: p in seen <==> Declares(phases, i, p)
      invariant forall j, k :: 0 <= j < k < i ==> phases[j].profile != phases[k].profile
    {
      var name := phases[i].profile;
      if name in seen {
        assert RepeatsAt(phases, i, name);
        return Some(DuplicatePhaseProfile(suite, name));
      }
      seen := seen + {name};
      assert forall p :: Declares(phases, i + 1, p) ==> Declares(phases, i, p) || p == name;
    }
    e := None;
  }

  /** `needs` names only phases declared before. */
  method CheckNeeds(suite: string, phases: seq<SuitePhase>) returns (e: Option<ConfigError>)
    ensures e.None? <==> forall i :: 0 <= i < |phases| ==> NeedsEarlier(phases, i)
    ensures e.Some? ==>
              && e.value.PhaseNeedsNotEarlier? && e.value.suite == suite
              && exists i: nat, k: nat :: NeedMissingAt(phases, i, k, e.value.phase, e.value.needed)
  {
    var earlier: set<string> := {};
    for i := 0 to |phases|
      invariant forall p :: p in earlier <==> Declares(phases, i, p)
      invariant forall j :: 0 <= j < i ==> NeedsEarlier(phases, j)
    {
      var needs := phases[i].needs;
      for k := 0 to |needs|
        invariant forall j :: 0 <= j < k ==> Declares(phases, i, needs[j])
      {
        if needs[k] !in earlier {
          assert !NeedsEarlier(phases, i) && NeedMissingAt(phases, i, k, phases[i].profile, needs[k]);
          return Some(PhaseNeedsNotEarlier(suite, phases[i].profile, needs[k]));
        }
      }
      earlier := earlier + {phases[i].profile};
      assert forall p :: Declares(phases, i + 1, p) ==> Declares(phases, i, p) || p == phases[i].profile;
    }
    e := None;
  }

  /** Inheriting phases: one need, single-setup ends, and no donor shared. */
  method CheckInherits(suite: string, phases: seq<SuitePhase>, profiles: map<string, Profile>)
    returns (e: Option<ConfigError>)
    ensures e.None? <==> InheritsUpTo(phases, profiles, |phases|)
    ensures e.Some? ==> e.value.suite == suite && exists i: nat :: InheritRefusedAt(phases, profiles, i, e.value)
  {
    var donorOf: map<string, string> := map[];
    for i := 0 to |phases|
      invariant InheritsUpTo(phases, profiles, i)
      invariant forall d :: d in donorOf ==> Feeds(phases, i, d, donorOf[d])
      invariant forall j :: 0 <= j < i && phases[j].world.Inherit? ==>
                  phases[j].needs != [] && phases[j].needs[0] in donorOf
    {
      var phase := phases[i];
      if phase.world.Fresh? {
        continue;
      }
      if |phase.needs| != 1 {
        assert !InheritsProperly(phases, profiles, i);
        e := Some(PhaseInheritArity(suite, phase.profile, |phase.needs|));
        assert InheritRefusedAt(phases, profiles, i, e.value);
        return;
      }
      var donor := phase.needs[0];
      if phase.profile in profiles && !IsSingleSetup(profiles[phase.profile]) {
        assert !InheritsProperly(phases, profiles, i);
        e := Some(PhaseWorldNotSingleSetup(suite, phase.profile, false));
        assert InheritRefusedAt(phases, profiles, i, e.value);
        return;
      }
      if donor in profiles && !IsSingleSetup(profiles[donor]) {
        assert !InheritsProperly(phases, profiles, i);
        e := Some(PhaseWorldNotSingleSetup(suite, donor, true));
        assert InheritRefusedAt(phases, profiles, i, e.value);
        return;
      }
      if donor in donorOf {
        ghost var j :| 0 <= j < i && InheritsFrom(phases[j], donor) && phases[j].profile == donorOf[donor];
        assert SharesDonor(phases, j, i);
        e := Some(SharedDonor(suite, donor, donorOf[donor], phase.profile));
        assert InheritRefusedAt(phases, profiles, i, e.value);
        return;
      }
      donorOf := donorOf[donor := phase.profile];
    }
    e := None;
  }

  /** The structure check of one suite accepts exactly the valid pipelines, and names the first defect otherwise. */
  method ValidateSuitePhaseStructure(suite: string, phases: seq<SuitePhase>, profiles: map<string, Profile>)
    returns (e: Option<ConfigError>)
    ensures e.None? <==> ValidPhases(phases, profiles)
    ensures e.Some? ==>
              FirstDefect(phases, profiles, e.value) && e.value.suite == suite && !e.value.SuiteProfilesAndPhases?
  {
    e := CheckUnique(suite, phases);
    if e.None? {
      e := CheckNeeds(suite, phases);
    }
    if e.None? {
      e := CheckInherits(suite, phases, profiles);
    }
  }

  // ----- normalization -----

  /** The fresh, dependency-free phase a legacy profile name stands for. */
  function LegacyPhase(profile: string): SuitePhase {
    SuitePhase(profile, [], Fresh, None)
  }

  predicate SetsBoth(suite: Suite) {
    suite.profiles != [] && suite.phases != []
  }

  /** The suite with `phases` as its only source of truth. */
  function Normalized(suite: Suite): Suite {
    if suite.profiles != [] && suite.phases == [] then
      suite.(profiles := [],
             phases := seq(|suite.profiles|, i requires 0 <= i < |suite.profiles| => LegacyPhase(suite.profiles[i])))
    else suite
  }

  /** A legacy list becomes, name by name, fresh phases that need nothing; any other suite stays as it is. */
  lemma NormalizedSuite(suite: Suite)
    ensures var after := Normalized(suite);
            && after.stopOnFailure == suite.stopOnFailure
            && if suite.profiles == [] || suite.phases != [] then after == suite
               else
                 && after.profiles == [] && |after.phases| == |suite.profiles|
                 && forall i :: 0 <= i < |suite.profiles| ==>
                      after.phases[i] == SuitePhase(suite.profiles[i], [], Fresh, None)
  {
  }

  /** Legacy names become phases that pass the structure check exactly when no name repeats. */
  lemma LegacySuitesAreValid(suite: Suite, profiles: map<string, Profile>)
    requires suite.profiles != [] && suite.phases == []
    ensures ValidPhases(Normalized(suite).phases, profiles)
        <==> forall i, j :: 0 <= i < j < |suite.profiles| ==> suite.profiles[i] != suite.profiles[j]
  {
    var phases := Normalized(suite).phases;
    if ValidPhases(phases, profiles) {
      forall i, j | 0 <= i < j < |suite.profiles| ensures suite.profiles[i] != suite.profiles[j] {
        assert phases[i].profile != phases[j].profile;
      }
    }
  }

  datatype NamedSuite = NamedSuite(name: string, suite: Suite)

  /** The error names this suite and something really wrong with it. */
  ghost predicate Explains(n: NamedSuite, profiles: map<string, Profile>, e: ConfigError) {
    && e.suite == n.name
    && if e.SuiteProfilesAndPhases? then SetsBoth(n.suite) else FirstDefect(Normalized(n.suite).phases, profiles, e)
  }

  /** The error is about suite `i`, and no earlier suite would have been refused by the same pass. */
  ghost predicate FirstBad(suites: seq<NamedSuite>, profiles: map<string, Profile>, i: nat, e: ConfigError)
    requires i < |suites|
  {
    && Explains(suites[i], profiles, e)
    && forall k :: 0 <= k < i ==>
         if e.SuiteProfilesAndPhases? then !SetsBoth(suites[k].suite)
             else ValidPhases(Normalized(suites[k].suite).phases, profiles)
  }

  /** A loaded configuration; its suites are listed in key order. */
  class RunConfig {
    const profiles: map<string, Profile>
    var suites: seq<NamedSuite>

    constructor (profiles: map<string, Profile>, suites: seq<NamedSuite>)
      ensures this.profiles == profiles && this.suites == suites
    {
      this.profiles, this.suites := profiles, suites;
    }

    /** Fold legacy lists into phases, then check every suite's structure. */
    method NormalizeSuitePhases() returns (e: Option<ConfigError>)
      modifies this
      ensures e.None? <==> forall n :: n in old(suites) ==>
              !SetsBoth(n.suite) && ValidPhases(Normalized(n.suite).phases, profiles)
      ensures e.Some? && e.value.SuiteProfilesAndPhases? <==>
              exists n :: n in old(suites) && n.suite.profiles != [] && n.suite.phases != []
      ensures e.Some? ==> exists i :: 0 <= i < |old(suites)| && FirstBad(old(suites), profiles, i, e.value)
      ensures !(e.Some? && e.value.SuiteProfilesAndPhases?) ==>
                && |suites| == |old(suites)|
                && forall i :: 0 <= i < |suites| ==>
                    suites[i] == old(suites)[i].(suite := Normalized(old(suites)[i].suite))
    {
      hide Normalized, ValidPhases;
      var before := suites;
      for i := 0 to |before|
        invariant |suites| == |before|
        invariant forall k :: 0 <= k < i ==> !SetsBoth(before[k].suite)
        invariant forall k :: 0 <= k < i ==> suites[k] == before[k].(suite := Normalized(before[k].suite))
        invariant forall k :: i <= k < |before| ==> suites[k] == before[k]
      {
        if SetsBoth(before[i].suite) {
          e := Some(SuiteProfilesAndPhases(before[i].name));
          assert before[i] in before && FirstBad(before, profiles, i, e.value);
          return;
        }
        suites := suites[i := before[i].(suite := Normalized(before[i].suite))];
      }
      ghost var normal := suites;
      for i := 0 to |suites|
        invariant suites == normal
        invariant forall k :: 0 <= k < i ==> ValidPhases(suites[k].suite.phases, profiles)
      {
        e := ValidateSuitePhaseStructure(suites[i].name, suites[i].suite.phases, profiles);
        if e.Some? {
          assert before[i] in before && FirstBad(before, profiles, i, e.value);
          return;
        }
      }
      e := None;
    }

    /** Every phase of every suite names a profile that exists. */
    method ValidateSuites() returns (e: Option<ConfigError>)
      ensures e.None? <==> forall n, p :: n in suites && p in n.suite.phases ==> p.profile in profiles
      ensures e.Some? ==> 
                e.value.UnknownSuiteProfile? && e.value.profile !in profiles
                && exists n, p :: n in suites && p in n.suite.phases && n.name == e.value.suite
                    && p.profile == e.value.profile
    {
      for i := 0 to |suites|
        invariant forall k, p :: 0 <= k < i && p in suites[k].suite.phases ==> p.profile in profiles
      {
        var phases := suites[i].suite.phases;
        for j := 0 to |phases|
          invariant forall k :: 0 <= k < j ==> phases[k].profile in profiles
        {
          if phases[j].profile !in profiles {
            assert suites[i] in suites && phases[j] in phases;
            return Some(UnknownSuiteProfile(suites[i].name, phases[j].profile));
          }
        }
      }
      e := None;
    }
  }
}
