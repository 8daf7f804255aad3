/**
 * The world handoff of a validated suite: when an inheriting phase starts from exactly the world
 * its donor ended with, and when the single slot loses it.
 */
module Handoff {
  import opened Prelude
  import opened Validate
  import opened Pipeline
  import Outcome

  // ----- what one phase does to the slot -----

  /** Phase `j` names phase `i` as the donor of its world. */
  predicate IsDonor(phases: seq<SuitePhase>, i: nat, j: nat)
    requires i < |phases| && j < |phases|
  {
    i < j && InheritsFrom(phases[j], phases[i].profile)
  }

  /** A phase that takes from the slot or leaves a world in it. */
  predicate UsesSlot(phases: seq<SuitePhase>, k: nat)
    requires k < |phases|
  {
    phases[k].world.Inherit? || Stashes(phases, k)
  }

  /** No phase strictly between the two uses the slot. */
  predicate ClearBetween(phases: seq<SuitePhase>, i: nat, j: nat)
    requires i < |phases| && j < |phases|
  {
    forall k :: i < k < j ==> !UsesSlot(phases, k)
  }

  /** No donor's handoff is crossed by another; a caller can check this on the suite alone. */
  predicate NonInterleaved(phases: seq<SuitePhase>) {
    forall i, j :: 0 <= i < |phases| && 0 <= j < |phases| && IsDonor(phases, i, j) ==> ClearBetween(phases, i, j)
  }

  lemma BystanderLeavesSlot(env: Env, plan: SuitePhase, index: nat, slot: Option<Stash>)
    requires plan.profile in env.profiles && plan.world.Fresh?
    ensures RunPhase(env, plan, index, false, slot).slot == slot
  {
  }

  lemma PassingDonorStashes(env: Env, plan: SuitePhase, index: nat, slot: Option<Stash>)
    requires plan.profile in env.profiles
    requires ResultCode(RunPhase(env, plan, index, true, slot).result) == 0
    ensures var run := RunPhase(env, plan, index, true, slot);
            run.ended.Some? && run.slot == Some(Stash(index, run.ended.value))
  {
  }

  /** Taking empties the slot, and only a phase of this index can fill it again. */
  lemma InheritorTakes(env: Env, plan: SuitePhase, index: nat, stash: bool, slot: Option<Stash>)
    requires plan.profile in env.profiles && plan.world.Inherit?
    ensures var run := RunPhase(env, plan, index, stash, slot);
            && (run.obtained.NotReached? || run.obtained == if slot.Some? then Took(slot.value) else FoundEmpty)
            && (ResultCode(run.result) == 0 ==> run.obtained.Took?)
            && (run.obtained.Took? && !stash ==> run.slot.None?)
  {
  }

  /** In general: the slot is kept, emptied by the inheritor that took it, or filled by a passing phase. */
  lemma SlotAfterPhase(env: Env, plan: SuitePhase, index: nat, stash: bool, slot: Option<Stash>)
    requires plan.profile in env.profiles
    ensures var run := RunPhase(env, plan, index, stash, slot);
            && (run.obtained.Took? ==> slot == Some(run.obtained.stash))
            && (|| (run.slot == slot && !run.obtained.Took?)
                || (run.slot == None && run.obtained.Took?)
                || (stash && run.ended.Some? && run.slot == Some(Stash(index, run.ended.value))
                    && ResultCode(run.result) == 0))
  {
  }

  // ----- the slot along a run -----

  /** Until its heir's turn, a passed donor's ending world is what the slot holds. */
  ghost predicate SlotHeld(phases: seq<SuitePhase>, st: SuiteRun) {
    |st.records| <= |phases| &&
    forall i, j :: 0 <= i < |st.records| <= j < |phases| && IsDonor(phases, i, j) && ClearBetween(phases, i, j) ==>
      st.records[i].outcome.Passed? ==>
      st.records[i].ended.Some? && st.slot == Some(Stash(i, st.records[i].ended.value))
  }

  /** Phase `j` started from what phase `i` ended with, unless it was refused before it could start. */
  predicate Handed(st: SuiteRun, i: nat, j: nat)
    requires i < |st.records| && j < |st.records|
  {
    || st.records[j].obtained.NotReached?
    || (&& st.records[i].outcome.Passed? && st.records[i].ended.Some?
        && st.records[j].obtained == Took(Stash(i, st.records[i].ended.value)))
  }

  ghost predicate AllHanded(phases: seq<SuitePhase>, st: SuiteRun) {
    |st.records| <= |phases| &&
    forall i, j :: 0 <= i < |st.records| && 0 <= j < |st.records| && IsDonor(phases, i, j) ==>
      ClearBetween(phases, i, j) ==> Handed(st, i, j)
  }

  lemma TurnRecord(env: Env, phases: seq<SuitePhase>, i: nat, st: SuiteRun)
    requires i < |phases| && |st.records| == i
    ensures var plan, next := phases[i], PhaseTurn(env, phases, i, st);
            && Extends(phases, i, st, next)
            && if next.records[i].outcome.Skipped? || plan.profile !in env.profiles then
                 next.slot == st.slot && next.records[i].obtained.NotReached?
               else
                 var run := RunPhase(env, plan, i, Stashes(phases, i), st.slot);
                 && next.slot == run.slot && next.records[i].obtained == run.obtained
                     && next.records[i].ended == run.ended
                 && (next.records[i].outcome.Passed? <==> ResultCode(run.result) == 0)
  {
    TurnExtends(env, phases, i, st);
    hide RunPhase, Stashes;
  }

  lemma SlotStaysHeld(env: Env, phases: seq<SuitePhase>, k: nat, st: SuiteRun, i: nat, j: nat)
    requires k < |phases| && |st.records| == k && SlotHeld(phases, st)
    requires i <= k < j < |phases| && IsDonor(phases, i, j) && ClearBetween(phases, i, j)
    ensures var next := PhaseTurn(env, phases, k, st);
            |next.records| == k + 1 &&
            (next.records[i].outcome.Passed? ==>
               next.records[i].ended.Some? && next.slot == Some(Stash(i, next.records[i].ended.value)))
  {
    TurnRecord(env, phases, k, st);
    var next := PhaseTurn(env, phases, k, st);
    if k == i {
      assert Stashes(phases, i);
      if next.records[i].outcome.Passed? && phases[i].profile in env.profiles {
        hide RunPhase, PhaseTurn;
        PassingDonorStashes(env, phases[i], i, st.slot);
      }
    } else {
      assert next.records[i] == st.records[i];
      assert !UsesSlot(phases, k);
      if phases[k].profile in env.profiles {
        hide RunPhase, PhaseTurn;
        BystanderLeavesSlot(env, phases[k], k, st.slot);
      }
    }
  }

  lemma HeirIsHanded(env: Env, phases: seq<SuitePhase>, j: nat, st: SuiteRun, i: nat)
    requires j < |phases| && |st.records| == j && Kept(phases, st) && SlotHeld(phases, st)
    requires i < j && IsDonor(phases, i, j) && ClearBetween(phases, i, j)
    ensures var next := PhaseTurn(env, phases, j, st); |next.records| == j + 1 && Handed(next, i, j)
  {
    TurnRecord(env, phases, j, st);
    var next := PhaseTurn(env, phases, j, st);
    assert next.records[i] == st.records[i];
    if !next.records[j].outcome.Skipped? && phases[j].profile in env.profiles {
      hide RunPhase, PhaseTurn;
      assert phases[i].profile in phases[j].needs;
      assert st.records[i].outcome.Passed?;
      InheritorTakes(env, phases[j], j, Stashes(phases, j), st.slot);
    }
  }

  lemma TurnKeepsHandoff(env: Env, phases: seq<SuitePhase>, k: nat, st: SuiteRun)
    requires k < |phases| && |st.records| == k && Kept(phases, st) && SlotHeld(phases, st) && AllHanded(phases, st)
    ensures var next := PhaseTurn(env, phases, k, st); SlotHeld(phases, next) && AllHanded(phases, next)
  {
    var next := PhaseTurn(env, phases, k, st);
    TurnExtends(env, phases, k, st);
    hide PhaseTurn, Kept, IsDonor, ClearBetween;
    assert forall m :: 0 <= m < k ==> next.records[m] == st.records[m];
    forall i, j | 0 <= i <= k < j < |phases| && IsDonor(phases, i, j) && ClearBetween(phases, i, j)
        && next.records[i].outcome.Passed?
      ensures next.records[i].ended.Some? && next.slot == Some(Stash(i, next.records[i].ended.value))
    {
      SlotStaysHeld(env, phases, k, st, i, j);
    }
    forall i, j | 0 <= i <= k && 0 <= j <= k && IsDonor(phases, i, j) && ClearBetween(phases, i, j)
      ensures Handed(next, i, j)
    {
      DonorIsEarlier(phases, i, j);
      if j == k { HeirIsHanded(env, phases, j, st, i); } else { assert Handed(st, i, j); }
    }
  }

  lemma DonorIsEarlier(phases: seq<SuitePhase>, i: nat, j: nat)
    requires i < |phases| && j < |phases| && IsDonor(phases, i, j)
    ensures i < j
  {
  }

  lemma {:induction false} RunKeepsHandoff(env: Env, phases: seq<SuitePhase>, stopOnFailure: bool, k: nat, st: SuiteRun)
    requires UniqueProfiles(phases)
    requires k <= |phases| && |st.records| == k && Kept(phases, st) && SlotHeld(phases, st) && AllHanded(phases, st)
    ensures AllHanded(phases, RunFrom(env, phases, stopOnFailure, k, st))
    decreases |phases| - k
  {
    hide Kept, SlotHeld, AllHanded, PhaseTurn;
    if k < |phases| && !env.stopped(k) {
      TurnKeeps(env, phases, k, st);
      TurnKeepsHandoff(env, phases, k, st);
      var next := PhaseTurn(env, phases, k, st);
      if !(stopOnFailure && next.records[|next.records| - 1].outcome.Failed?) {
        RunKeepsHandoff(env, phases, stopOnFailure, k + 1, next);
      }
    }
  }

  lemma FirstIsKept(phases: seq<SuitePhase>)
    ensures Kept(phases, FIRST) && SlotHeld(phases, FIRST) && AllHanded(phases, FIRST)
  {
  }

  /**
   * An inheriting phase begins from exactly the world its donor ended with, and never finds the
   * slot empty, provided no phase between the two uses the slot.
   */
  lemma HeirStartsFromDonorsWorld(env: Env, phases: seq<SuitePhase>, stopOnFailure: bool, i: nat, j: nat)
    requires ValidPhases(phases, env.profiles)
    requires i < |phases| && j < |phases| && IsDonor(phases, i, j) && ClearBetween(phases, i, j)
    requires j < |RunSuite(env, phases, stopOnFailure).records|
    ensures Handed(RunSuite(env, phases, stopOnFailure), i, j)
  {
    FirstIsKept(phases);
    RunKeepsHandoff(env, phases, stopOnFailure, 0, FIRST);
  }

  // ----- what an heir does with the world it took -----

  /** The seed of a phase with a single starting world. */
  function PhaseSeed(env: Env, plan: SuitePhase): nat
    requires plan.profile in env.profiles
  {
    if env.profiles[plan.profile].Fuzz? then CaseSeed(env.seed(plan.profile), 0) else env.seed(plan.profile)
  }

  /** The world a phase drives when it is handed `start`; none if its patch cannot be applied. */
  function Patched(env: Env, plan: SuitePhase, start: World): Option<World> {
    if plan.params.None? then Some(start)
    else if env.patch.None? then None
    else env.patch.value(start, plan.params.value)
  }

  /** The phase ended where its profile leads from `start`, with only the phase's own patch in between. */
  ghost predicate DroveFrom(env: Env, plan: SuitePhase, start: World, ended: World) {
    && plan.profile in env.profiles
    && Patched(env, plan, start).Some?
    && ended == env.drive(plan.profile, PhaseSeed(env, plan), Patched(env, plan, start).value).0
  }

  lemma PhaseDrivesWhatItTook(env: Env, plan: SuitePhase, index: nat, stash: bool, slot: Option<Stash>)
    requires plan.profile in env.profiles
    ensures var run := RunPhase(env, plan, index, stash, slot);
            run.obtained.Took? ==>
              && (run.ended.Some? ==> DroveFrom(env, plan, run.obtained.stash.world, run.ended.value))
              && (ResultCode(run.result) == 0 ==> run.ended.Some?)
  {
  }

  /**
   * The phase has one starting world: it is no fuzz phase, or a fuzz phase of one case that uses the
   * slot or a patch.
   */
  predicate HasOneWorld(env: Env, plan: SuitePhase, stash: bool)
    requires plan.profile in env.profiles
  {
    var profile := env.profiles[plan.profile];
    profile.Fuzz? ==> Cases(env, profile) == 1 && (plan.world.Inherit? || stash || plan.params.Some?)
  }

  /**
   * What a phase is refused for, before it is driven and in this order: an unknown harness, a profile
   * without cases, whatever the profile's own checks find, several cases where one world is asked for,
   * a setup that fails or a slot that is empty, a patch that is missing or fails, a step that cannot
   * be decoded.
   */
  lemma RefusedBeforeItIsDriven(env: Env, plan: SuitePhase, index: nat, stash: bool, slot: Option<Stash>)
    requires plan.profile in env.profiles
    ensures var run, profile := RunPhase(env, plan, index, stash, slot), env.profiles[plan.profile];
            var many := profile.Fuzz? && Cases(env, profile) != 1
                && (plan.world.Inherit? || stash || plan.params.Some?);
            if !env.registered then run.result == Err(UnknownHarness)
            else if profile.Fuzz? && Cases(env, profile) == 0 then run.result == Err(InvalidRun)
            else if env.precheck(plan.profile).Some? then run.result == Err(env.precheck(plan.profile).value)
            else if many then run.result == Err(InvalidRun)
            else if !HasOneWorld(env, plan, stash) then run.ended.None?
            else
              var built := env.setup(plan.profile, PhaseSeed(env, plan));
              if plan.world.Fresh? && built.Err? then run.result == Err(built.error)
              else if plan.world.Inherit? && slot.None? then run.result == Err(NoDonorWorld)
              else
                var start := if plan.world.Fresh? then built.value else slot.value.world;
                if plan.params.Some? && env.patch.None? then run.result == Err(InvalidRun)
                else if Patched(env, plan, start).None? then run.result == Err(SetupFailed)
                else if env.decode(plan.profile).Some? then run.result == Err(env.decode(plan.profile).value)
                else
                  && run.ended == Some(env.drive(plan.profile, PhaseSeed(env, plan), Patched(env, plan, start).value).0)
                  && match env.exportWorld(plan.profile, run.ended.value)
                     case Some(e) => run.result == Err(e)
                     case None => run.result.Ok?
  {
    hide RunCases;
  }

  /** `start` is the world the phase was handed: taken from the slot, or set up at its own seed. */
  ghost predicate HandedWorld(env: Env, plan: SuitePhase, r: PhaseRecord, start: World)
    requires plan.profile in env.profiles
  {
    match r.obtained
    case Took(stash) => start == stash.world
    case Built => env.setup(plan.profile, PhaseSeed(env, plan)) == Ok(start)
    case _ => false
  }

  /**
   * A phase that reports a pass or a failure reports what driving its profile gave: from the patched
   * world it was handed or, for a plain fuzz phase, over its cases one after the other.
   */
  ghost predicate ReportsItsDrive(env: Env, plan: SuitePhase, r: PhaseRecord) {
    r.result.Some? && r.result.value.Ok? ==>
      && plan.profile in env.profiles
      && match r.ended
         case Some(ended) =>
           exists start :: HandedWorld(env, plan, r, start) && Patched(env, plan, start).Some?
             && (ended, r.result.value.value)
                 == env.drive(plan.profile, PhaseSeed(env, plan), Patched(env, plan, start).value)
         case None =>
           var profile := env.profiles[plan.profile];
           && profile.Fuzz? && plan.world.Fresh? && plan.params.None? && Cases(env, profile) > 0
           && r.result.value == RunCases(env, plan.profile, env.seed(plan.profile), 0, Cases(env, profile))
  }

  lemma TurnReportsItsDrive(env: Env, phases: seq<SuitePhase>, k: nat, st: SuiteRun)
    requires k < |phases| && |st.records| == k
    ensures var next := PhaseTurn(env, phases, k, st);
            |next.records| == k + 1 && next.records[..k] == st.records
                && ReportsItsDrive(env, phases[k], next.records[k])
  {
    var plan, next := phases[k], PhaseTurn(env, phases, k, st);
    TurnExtends(env, phases, k, st);
    hide Stashes, RunCases, Extends, Gated;
    var r := next.records[k];
    if r.result.Some? && r.result.value.Ok? && r.ended.Some? {
      match r.obtained {
        case Took(stash) => assert HandedWorld(env, plan, r, stash.world);
        case Built => assert HandedWorld(env, plan, r, env.setup(plan.profile, PhaseSeed(env, plan)).value);
        case _ =>
      }
    }
  }

  lemma {:induction false} RunReportsItsDrives(env: Env, phases: seq<SuitePhase>, stopOnFailure: bool, k: nat,
                                               st: SuiteRun)
    requires k <= |phases| && |st.records| == k
    requires forall m :: 0 <= m < k ==> ReportsItsDrive(env, phases[m], st.records[m])
    ensures var fin := RunFrom(env, phases, stopOnFailure, k, st);
            |fin.records| <= |phases|
            && forall m :: 0 <= m < |fin.records| ==> ReportsItsDrive(env, phases[m], fin.records[m])
    decreases |phases| - k
  {
    hide ReportsItsDrive, PhaseTurn;
    if k < |phases| && !env.stopped(k) {
      var next := PhaseTurn(env, phases, k, st);
      TurnReportsItsDrive(env, phases, k, st);
      assert forall m :: 0 <= m < k ==> next.records[m] == st.records[m];
      if !(stopOnFailure && next.records[|next.records| - 1].outcome.Failed?) {
        RunReportsItsDrives(env, phases, stopOnFailure, k + 1, next);
      }
    }
  }

  /** Over a whole run, every phase that reports a pass or a failure reports what its own drive gave. */
  lemma EveryReportIsDriven(env: Env, phases: seq<SuitePhase>, stopOnFailure: bool)
    ensures var st := RunSuite(env, phases, stopOnFailure);
            |st.records| <= |phases|
            && forall k :: 0 <= k < |st.records| ==> ReportsItsDrive(env, phases[k], st.records[k])
  {
    RunReportsItsDrives(env, phases, stopOnFailure, 0, FIRST);
  }

  ghost predicate TakersDrove(env: Env, phases: seq<SuitePhase>, st: SuiteRun) {
    |st.records| <= |phases| &&
    forall k :: 0 <= k < |st.records| && st.records[k].obtained.Took? ==>
      && (st.records[k].outcome.Passed? ==> st.records[k].ended.Some?)
      && (st.records[k].ended.Some? ==>
          DroveFrom(env, phases[k], st.records[k].obtained.stash.world, st.records[k].ended.value))
  }

  lemma TurnKeepsTakersDrove(env: Env, phases: seq<SuitePhase>, k: nat, st: SuiteRun)
    requires k < |phases| && |st.records| == k && TakersDrove(env, phases, st)
    ensures TakersDrove(env, phases, PhaseTurn(env, phases, k, st))
  {
    TurnRecord(env, phases, k, st);
    var next := PhaseTurn(env, phases, k, st);
    if phases[k].profile in env.profiles { PhaseDrivesWhatItTook(env, phases[k], k, Stashes(phases, k), st.slot); }
    hide PhaseTurn, RunPhase, Stashes, DroveFrom;
    assert forall m :: 0 <= m < k ==> next.records[m] == st.records[m];
  }

  lemma {:induction false} RunKeepsTakersDrove(env: Env, phases: seq<SuitePhase>, stopOnFailure: bool, k: nat,
                                               st: SuiteRun)
    requires k <= |phases| && |st.records| == k && TakersDrove(env, phases, st)
    ensures TakersDrove(env, phases, RunFrom(env, phases, stopOnFailure, k, st))
    decreases |phases| - k
  {
    hide TakersDrove, PhaseTurn;
    if k < |phases| && !env.stopped(k) {
      TurnKeepsTakersDrove(env, phases, k, st);
      TurnExtends(env, phases, k, st);
      var next := PhaseTurn(env, phases, k, st);
      if !(stopOnFailure && next.records[|next.records| - 1].outcome.Failed?) {
        RunKeepsTakersDrove(env, phases, stopOnFailure, k + 1, next);
      }
    }
  }

  /**
   * From ending world to ending world: an heir that passed ended where its profile leads from its
   * donor's ending world, with nothing but its own patch in between.
   */
  lemma HeirContinuesDonor(env: Env, phases: seq<SuitePhase>, stopOnFailure: bool, i: nat, j: nat)
    requires ValidPhases(phases, env.profiles)
    requires i < |phases| && j < |phases| && IsDonor(phases, i, j) && ClearBetween(phases, i, j)
    requires var st := RunSuite(env, phases, stopOnFailure); j < |st.records| && st.records[j].outcome.Passed?
    ensures var st := RunSuite(env, phases, stopOnFailure);
            && st.records[i].outcome.Passed? && st.records[i].ended.Some? && st.records[j].ended.Some?
            && DroveFrom(env, phases[j], st.records[i].ended.value, st.records[j].ended.value)
  {
    HeirStartsFromDonorsWorld(env, phases, stopOnFailure, i, j);
    PassedHeirTook(env, phases, stopOnFailure, 0, FIRST, j);
    RunKeepsTakersDrove(env, phases, stopOnFailure, 0, FIRST);
    hide RunFrom, DroveFrom;
    var st := RunSuite(env, phases, stopOnFailure);
    assert st.records[j].obtained.Took?;
  }

  /**
   * The validator's single-setup rule is what the runtime asks of a slot user, unless the case
   * count is overridden from outside the suite: the override is checked at run time only.
   */
  lemma SlotUserIsSingleCase(env: Env, phases: seq<SuitePhase>, k: nat)
    requires ValidPhases(phases, env.profiles) && k < |phases| && UsesSlot(phases, k)
    requires phases[k].profile in env.profiles && env.profiles[phases[k].profile].Fuzz?
    ensures Cases(env, env.profiles[phases[k].profile]) == 1 <==> env.caseOverride.None? || env.caseOverride.value == 1
  {
    if Stashes(phases, k) {
      var j :| k < j < |phases| && InheritsFrom(phases[j], phases[k].profile);
      assert InheritsProperly(phases, env.profiles, j);
    }
    if phases[k].world.Inherit? { assert InheritsProperly(phases, env.profiles, k); }
  }

  /** A slot user with any other number of cases is refused, and the slot stays as it was. */
  lemma MultiCaseSlotUserIsRefused(env: Env, phases: seq<SuitePhase>, k: nat, slot: Option<Stash>)
    requires k < |phases| && UsesSlot(phases, k) && phases[k].profile in env.profiles
             && env.profiles[phases[k].profile].Fuzz?
    requires Cases(env, env.profiles[phases[k].profile]) != 1
    ensures var run := RunPhase(env, phases[k], k, Stashes(phases, k), slot);
            run.result.Err? && run.slot == slot && run.obtained.NotReached? && run.ended.None?
  {
    hide Stashes, RunSingle, RunCases;
  }

  // ----- every stash is taken at most once -----

  /** What is in the slot, and what was ever taken, is the ending world of a passed earlier phase. */
  ghost predicate StashesGenuine(st: SuiteRun) {
    && (st.slot.Some? ==> Genuine(st, |st.records|, st.slot.value))
    && (forall k :: 0 <= k < |st.records| && st.records[k].obtained.Took? ==>
        Genuine(st, k, st.records[k].obtained.stash))
    && (forall k :: 0 <= k < |st.records| && st.records[k].obtained.Took? && st.slot.Some? ==>
          st.records[k].obtained.stash.donor != st.slot.value.donor)
    && TakenOnce(st)
  }

  ghost predicate Genuine(st: SuiteRun, k: nat, s: Stash) {
    s.donor < k && s.donor < |st.records| && st.records[s.donor].outcome.Passed?
        && st.records[s.donor].ended == Some(s.world)
  }

  ghost predicate TakenOnce(st: SuiteRun) {
    forall k, m :: 0 <= k < m < |st.records| && st.records[k].obtained.Took? && st.records[m].obtained.Took? ==>
      st.records[k].obtained.stash.donor != st.records[m].obtained.stash.donor
  }

  lemma TurnKeepsGenuine(env: Env, phases: seq<SuitePhase>, k: nat, st: SuiteRun)
    requires k < |phases| && |st.records| == k && StashesGenuine(st)
    ensures StashesGenuine(PhaseTurn(env, phases, k, st))
  {
    TurnRecord(env, phases, k, st);
    var next := PhaseTurn(env, phases, k, st);
    hide PhaseTurn, RunPhase, Stashes;
    assert forall m :: 0 <= m < k ==> next.records[m] == st.records[m];
    if !next.records[k].outcome.Skipped? && phases[k].profile in env.profiles {
      SlotAfterPhase(env, phases[k], k, Stashes(phases, k), st.slot);
    }
  }

  lemma {:induction false} RunKeepsGenuine(env: Env, phases: seq<SuitePhase>, stopOnFailure: bool, k: nat, st: SuiteRun)
    requires k <= |phases| && |st.records| == k && StashesGenuine(st)
    ensures StashesGenuine(RunFrom(env, phases, stopOnFailure, k, st))
    decreases |phases| - k
  {
    hide StashesGenuine, PhaseTurn;
    if k < |phases| && !env.stopped(k) {
      TurnKeepsGenuine(env, phases, k, st);
      TurnExtends(env, phases, k, st);
      var next := PhaseTurn(env, phases, k, st);
      if !(stopOnFailure && next.records[|next.records| - 1].outcome.Failed?) {
        RunKeepsGenuine(env, phases, stopOnFailure, k + 1, next);
      }
    }
  }

  /** Over a whole run, every inherited world is one passed phase's ending world, handed on at most once. */
  lemma EveryStashTakenAtMostOnce(env: Env, phases: seq<SuitePhase>, stopOnFailure: bool)
    ensures var st := RunSuite(env, phases, stopOnFailure);
            && TakenOnce(st)
            && forall k :: 0 <= k < |st.records| && st.records[k].obtained.Took? ==>
                Genuine(st, k, st.records[k].obtained.stash)
  {
    RunKeepsGenuine(env, phases, stopOnFailure, 0, FIRST);
  }

  // ----- exactly when the handoff works -----

  /** Every phase of the suite succeeds once it has a starting world. */
  ghost predicate AllSucceed(env: Env, phases: seq<SuitePhase>) {
    && env.registered
    && (forall i: nat :: !env.stopped(i))
    && (forall i :: 0 <= i < |phases| ==> Succeeds(env, phases[i]))
  }

  ghost predicate Succeeds(env: Env, plan: SuitePhase) {
    && plan.profile in env.profiles
    && (env.profiles[plan.profile].Fuzz? ==> Cases(env, env.profiles[plan.profile]) == 1)
    && env.precheck(plan.profile).None? && env.decode(plan.profile).None?
    && (forall seed: nat :: env.setup(plan.profile, seed).Ok?)
    && (plan.params.Some? ==> env.patch.Some? && forall w: World :: env.patch.value(w, plan.params.value).Some?)
    && (forall seed: nat, w: World :: env.drive(plan.profile, seed, w).1.None?)
    && (forall w: World :: env.exportWorld(plan.profile, w).None?)
  }

  lemma SucceedingPhase(env: Env, plan: SuitePhase, index: nat, stash: bool, slot: Option<Stash>)
    requires env.registered && Succeeds(env, plan)
    ensures var run := RunPhase(env, plan, index, stash, slot);
            && (plan.world.Fresh? ==> ResultCode(run.result) == 0)
            && (plan.world.Inherit? && slot.Some? ==> ResultCode(run.result) == 0 && run.obtained == Took(slot.value))
            && (plan.world.Inherit? && slot.None? ==> run.obtained == FoundEmpty && ResultCode(run.result) == 3)
  {
  }

  predicate AllPassed(st: SuiteRun) {
    forall k :: 0 <= k < |st.records| ==> st.records[k].outcome.Passed?
  }

  lemma NothingGated(phases: seq<SuitePhase>, profiles: map<string, Profile>, k: nat, st: SuiteRun)
    requires ValidPhases(phases, profiles) && k < |phases| && |st.records| == k && Kept(phases, st) && AllPassed(st)
    ensures !Gated(st.outcomes, phases[k])
  {
    forall d | d in phases[k].needs ensures d in st.outcomes && st.outcomes[d].Passed? {
      assert NeedsEarlier(phases, k);
      assert Declares(phases, k, d);
    }
  }

  lemma DonorExists(phases: seq<SuitePhase>, profiles: map<string, Profile>, j: nat) returns (i: nat)
    requires ValidPhases(phases, profiles) && j < |phases| && phases[j].world.Inherit?
    ensures i < j && IsDonor(phases, i, j)
  {
    assert InheritsProperly(phases, profiles, j) && NeedsEarlier(phases, j);
    assert phases[j].needs[0] in phases[j].needs;
    assert Declares(phases, j, phases[j].needs[0]);
    i :| 0 <= i < j && phases[i].profile == phases[j].needs[0];
  }

  /** What `RunFrom` returns still starts with the records it was given. */
  lemma {:induction false} RecordsOnlyGrow(env: Env, phases: seq<SuitePhase>, stopOnFailure: bool, k: nat, st: SuiteRun)
    requires k <= |phases| && |st.records| == k
    ensures st.records <= RunFrom(env, phases, stopOnFailure, k, st).records
    decreases |phases| - k
  {
    hide PhaseTurn;
    if k < |phases| && !env.stopped(k) {
      TurnExtends(env, phases, k, st);
      var next := PhaseTurn(env, phases, k, st);
      assert next.records == st.records + [next.records[k]];
      if !(stopOnFailure && next.records[k].outcome.Failed?) {
        RecordsOnlyGrow(env, phases, stopOnFailure, k + 1, next);
      }
    }
  }

  /** A phase that succeeds given a world passes whenever the slot serves it. */
  lemma SucceedingTurn(env: Env, phases: seq<SuitePhase>, k: nat, st: SuiteRun)
    requires ValidPhases(phases, env.profiles) && AllSucceed(env, phases)
    requires k < |phases| && |st.records| == k && Kept(phases, st) && AllPassed(st)
    requires phases[k].world.Inherit? ==> st.slot.Some?
    ensures var next := PhaseTurn(env, phases, k, st); |next.records| == k + 1 && AllPassed(next)
  {
    var next := PhaseTurn(env, phases, k, st);
    TurnRecord(env, phases, k, st);
    NothingGated(phases, env.profiles, k, st);
    SucceedingPhase(env, phases[k], k, Stashes(phases, k), st.slot);
    assert next.records[k].outcome.Passed? by {
      hide RunPhase, Kept, ValidPhases;
    }
    assert forall m :: 0 <= m < k ==> next.records[m] == st.records[m];
  }

  lemma HeldSlotServes(phases: seq<SuitePhase>, profiles: map<string, Profile>, k: nat, st: SuiteRun)
    requires ValidPhases(phases, profiles) && NonInterleaved(phases)
    requires k < |phases| && |st.records| == k && SlotHeld(phases, st) && AllPassed(st) && phases[k].world.Inherit?
    ensures st.slot.Some?
  {
    var i := DonorExists(phases, profiles, k);
  }

  /** In a non-interleaved suite where phases succeed, all of them run and pass. */
  lemma {:induction false} SucceedingRunPasses(env: Env, phases: seq<SuitePhase>, stopOnFailure: bool, k: nat,
                                               st: SuiteRun)
    requires ValidPhases(phases, env.profiles) && AllSucceed(env, phases) && NonInterleaved(phases)
    requires k <= |phases| && |st.records| == k && Kept(phases, st) && SlotHeld(phases, st) && AllHanded(phases, st)
             && AllPassed(st)
    ensures var fin := RunFrom(env, phases, stopOnFailure, k, st); AllPassed(fin) && |fin.records| == |phases|
    decreases |phases| - k
  {
    assert UniqueProfiles(phases) && !env.stopped(k);
    hide PhaseTurn, Kept, SlotHeld, AllHanded, ValidPhases, AllSucceed, NonInterleaved;
    if k < |phases| {
      var next := PhaseTurn(env, phases, k, st);
      if phases[k].world.Inherit? { HeldSlotServes(phases, env.profiles, k, st); }
      SucceedingTurn(env, phases, k, st);
      TurnKeeps(env, phases, k, st);
      TurnKeepsHandoff(env, phases, k, st);
      SucceedingRunPasses(env, phases, stopOnFailure, k + 1, next);
    }
  }

  /** Every inheriting phase of the suite ran from its donor's ending world. */
  ghost predicate HandoffWorks(phases: seq<SuitePhase>, st: SuiteRun) {
    forall i, j :: 0 <= i < |phases| && 0 <= j < |phases| && IsDonor(phases, i, j) ==>
      && j < |st.records| && st.records[i].ended.Some?
      && st.records[j].obtained == Took(Stash(i, st.records[i].ended.value))
  }

  lemma {:induction false} PassedHeirTook(env: Env, phases: seq<SuitePhase>, stopOnFailure: bool, k: nat, st: SuiteRun,
                                          j: nat)
    requires k <= j < |phases| && |st.records| == k && phases[j].world.Inherit?
    ensures var fin := RunFrom(env, phases, stopOnFailure, k, st);
            j < |fin.records| && fin.records[j].outcome.Passed? ==> fin.records[j].obtained.Took?
    decreases |phases| - k
  {
    if !env.stopped(k) {
      TurnRecord(env, phases, k, st);
      var next := PhaseTurn(env, phases, k, st);
      hide PhaseTurn;
      if !(stopOnFailure && next.records[k].outcome.Failed?) {
        if k == j {
          RecordsOnlyGrow(env, phases, stopOnFailure, k + 1, next);
        } else {
          PassedHeirTook(env, phases, stopOnFailure, k + 1, next, j);
        }
      }
      if k == j && phases[j].profile in env.profiles { InheritorTakes(env, phases[j], j, Stashes(phases, j), st.slot); }
    }
  }

  /** Without interleaving, every handoff of a suite whose phases succeed works. */
  lemma NonInterleavedHandsOver(env: Env, phases: seq<SuitePhase>, stopOnFailure: bool)
    requires ValidPhases(phases, env.profiles) && AllSucceed(env, phases) && NonInterleaved(phases)
    ensures HandoffWorks(phases, RunSuite(env, phases, stopOnFailure))
  {
    FirstIsKept(phases);
    SucceedingRunPasses(env, phases, stopOnFailure, 0, FIRST);
    var fin := RunSuite(env, phases, stopOnFailure);
    forall i, j | 0 <= i < |phases| && 0 <= j < |phases| && IsDonor(phases, i, j)
      ensures && j < |fin.records| && fin.records[i].ended.Some?
              && fin.records[j].obtained == Took(Stash(i, fin.records[i].ended.value))
    {
      hide RunFrom, ValidPhases, AllSucceed;
      assert fin.records[j].outcome.Passed?;
      HeirStartsFromDonorsWorld(env, phases, stopOnFailure, i, j);
      PassedHeirTook(env, phases, stopOnFailure, 0, FIRST, j);
      assert Handed(fin, i, j);
    }
  }

  // ----- a crossed handoff is lost -----

  predicate SlotNewerThan(slot: Option<Stash>, k: nat) {
    slot.Some? ==> slot.value.donor >= k
  }

  /** Once the slot holds nothing older than `k`, no later phase takes anything older. */
  lemma {:induction false} NothingOlderReturns(env: Env, phases: seq<SuitePhase>, stopOnFailure: bool, m: nat,
                                               st: SuiteRun, k: nat, j: nat)
    requires k <= m <= j < |phases| && |st.records| == m && SlotNewerThan(st.slot, k)
    ensures var fin := RunFrom(env, phases, stopOnFailure, m, st);
            j < |fin.records| && fin.records[j].obtained.Took? ==> fin.records[j].obtained.stash.donor >= k
    decreases |phases| - m
  {
    if !env.stopped(m) {
      TurnRecord(env, phases, m, st);
      var next := PhaseTurn(env, phases, m, st);
      hide PhaseTurn, Extends;
      if phases[m].profile in env.profiles { SlotAfterPhase(env, phases[m], m, Stashes(phases, m), st.slot); }
      hide RunPhase;
      assert SlotNewerThan(next.slot, k);
      assert |next.records| == m + 1;
      if !(stopOnFailure && next.records[m].outcome.Failed?) {
        if m == j {
          RecordsOnlyGrow(env, phases, stopOnFailure, m + 1, next);
        } else {
          NothingOlderReturns(env, phases, stopOnFailure, m + 1, next, k, j);
        }
      }
    }
  }

  /** A passed phase that uses the slot leaves nothing older than itself there. */
  lemma UserRefreshesSlot(env: Env, phases: seq<SuitePhase>, k: nat, st: SuiteRun)
    requires k < |phases| && |st.records| == k && UsesSlot(phases, k)
    ensures var next := PhaseTurn(env, phases, k, st);
            |next.records| == k + 1 && (next.records[k].outcome.Passed? ==> SlotNewerThan(next.slot, k))
  {
    TurnRecord(env, phases, k, st);
    var next := PhaseTurn(env, phases, k, st);
    if next.records[k].outcome.Passed? && phases[k].profile in env.profiles {
      hide PhaseTurn, RunPhase;
      if Stashes(phases, k) {
        PassingDonorStashes(env, phases[k], k, st.slot);
      } else {
        InheritorTakes(env, phases[k], k, false, st.slot);
        SlotAfterPhase(env, phases[k], k, false, st.slot);
      }
    }
  }

  lemma {:induction false} CrossedFrom(env: Env, phases: seq<SuitePhase>, stopOnFailure: bool, m: nat, st: SuiteRun,
                                       k: nat, j: nat)
    requires m <= k < j < |phases| && |st.records| == m && UsesSlot(phases, k)
    requires var fin := RunFrom(env, phases, stopOnFailure, m, st); j < |fin.records| && fin.records[k].outcome.Passed?
    ensures var fin := RunFrom(env, phases, stopOnFailure, m, st);
            fin.records[j].obtained.Took? ==> fin.records[j].obtained.stash.donor >= k
    decreases |phases| - m
  {
    TurnExtends(env, phases, m, st);
    var next := PhaseTurn(env, phases, m, st);
    if !env.stopped(m) && !(stopOnFailure && next.records[m].outcome.Failed?) {
      if m == k { UserRefreshesSlot(env, phases, k, st); }
      hide PhaseTurn, Extends;
      RecordsOnlyGrow(env, phases, stopOnFailure, m + 1, next);
      if m == k {
        NothingOlderReturns(env, phases, stopOnFailure, m + 1, next, k, j);
      } else {
        CrossedFrom(env, phases, stopOnFailure, m + 1, next, k, j);
      }
    }
  }

  /** In this run phase `k` took a world from the slot, or left its own there. */
  predicate TouchedSlot(phases: seq<SuitePhase>, st: SuiteRun, k: nat)
    requires k < |phases| && k < |st.records|
  {
    st.records[k].obtained.Took? || (Stashes(phases, k) && st.records[k].outcome.Passed?)
  }

  /** None of the phases from `m` up to `j` touched the slot. */
  ghost predicate UntouchedBetween(phases: seq<SuitePhase>, st: SuiteRun, m: nat, j: nat)
    requires j < |phases| && j < |st.records|
  {
    forall k :: m <= k < j ==> !TouchedSlot(phases, st, k)
  }

  /** What one turn does to a stash that is in the slot: it stays, or nothing older than this phase does. */
  lemma TurnOnSlot(env: Env, phases: seq<SuitePhase>, k: nat, st: SuiteRun)
    requires k < |phases| && |st.records| == k
    ensures var next := PhaseTurn(env, phases, k, st);
            && |next.records| == k + 1
            && (next.records[k].obtained.Took? ==> st.slot == Some(next.records[k].obtained.stash))
            && if TouchedSlot(phases, next, k) then SlotNewerThan(next.slot, k) else next.slot == st.slot
  {
    TurnRecord(env, phases, k, st);
    var next := PhaseTurn(env, phases, k, st);
    if !next.records[k].outcome.Skipped? && phases[k].profile in env.profiles {
      hide PhaseTurn, RunPhase;
      SlotAfterPhase(env, phases[k], k, Stashes(phases, k), st.slot);
      if Stashes(phases, k) && next.records[k].outcome.Passed? { PassingDonorStashes(env, phases[k], k, st.slot); }
    }
  }

  /** What the heir started from, as far as the record tells. */
  predicate TookFrom(st: SuiteRun, j: nat, s: Stash)
    requires j < |st.records|
  {
    st.records[j].obtained == Took(s)
  }

  lemma {:induction false} StashReachesHeirIff(env: Env, phases: seq<SuitePhase>, stopOnFailure: bool, m: nat,
                                               st: SuiteRun, s: Stash, j: nat)
    requires s.donor < m <= j < |phases| && |st.records| == m && st.slot == Some(s) && phases[j].world.Inherit?
    requires j < |RunFrom(env, phases, stopOnFailure, m, st).records|
    ensures var fin := RunFrom(env, phases, stopOnFailure, m, st);
            TookFrom(fin, j, s) <==> !fin.records[j].obtained.NotReached? && UntouchedBetween(phases, fin, m, j)
    decreases |phases| - m
  {
    var fin := RunFrom(env, phases, stopOnFailure, m, st);
    TurnRecord(env, phases, m, st);
    TurnOnSlot(env, phases, m, st);
    var next := PhaseTurn(env, phases, m, st);
    if phases[m].profile in env.profiles && phases[m].world.Inherit? {
      InheritorTakes(env, phases[m], m, Stashes(phases, m), st.slot);
    }
    hide PhaseTurn, RunPhase, Extends, Stashes;
    var goesOn := !env.stopped(m) && !(stopOnFailure && next.records[m].outcome.Failed?);
    assert !env.stopped(m);
    if goesOn { RecordsOnlyGrow(env, phases, stopOnFailure, m + 1, next); }
    assert fin.records[m] == next.records[m];
    if m < j {
      assert TouchedSlot(phases, fin, m) <==> TouchedSlot(phases, next, m);
      assert UntouchedBetween(phases, fin, m, j)
             <==> !TouchedSlot(phases, fin, m) && UntouchedBetween(phases, fin, m + 1, j);
      hide RunFrom, UntouchedBetween, TouchedSlot;
      if TouchedSlot(phases, next, m) {
        NothingOlderReturns(env, phases, stopOnFailure, m + 1, next, m, j);
      } else {
        StashReachesHeirIff(env, phases, stopOnFailure, m + 1, next, s, j);
      }
    }
  }

  lemma {:induction false} HeirFateFrom(env: Env, phases: seq<SuitePhase>, stopOnFailure: bool, m: nat, st: SuiteRun,
                                        i: nat, j: nat)
    requires m <= i < |phases| && j < |phases| && IsDonor(phases, i, j) && |st.records| == m
    requires var fin := RunFrom(env, phases, stopOnFailure, m, st); j < |fin.records| && fin.records[i].outcome.Passed?
    ensures var fin := RunFrom(env, phases, stopOnFailure, m, st);
            && fin.records[i].ended.Some?
            && (TookFrom(fin, j, Stash(i, fin.records[i].ended.value))
                <==> !fin.records[j].obtained.NotReached? && UntouchedBetween(phases, fin, i + 1, j))
    decreases |phases| - m
  {
    DonorIsEarlier(phases, i, j);
    TurnRecord(env, phases, m, st);
    var next := PhaseTurn(env, phases, m, st);
    assert m == i ==> Stashes(phases, i);
    if m == i && phases[i].profile in env.profiles {
      var run := RunPhase(env, phases[i], i, true, st.slot);
      if ResultCode(run.result) == 0 { PassingDonorStashes(env, phases[i], i, st.slot); }
    }
    assert phases[j].world.Inherit?;
    hide PhaseTurn, RunPhase, Extends, Stashes, TookFrom, UntouchedBetween;
    assert !env.stopped(m) && !(stopOnFailure && next.records[m].outcome.Failed?);
    RecordsOnlyGrow(env, phases, stopOnFailure, m + 1, next);
    hide RunFrom;
    if m == i {
      StashReachesHeirIff(env, phases, stopOnFailure, m + 1, next, next.slot.value, j);
    } else {
      HeirFateFrom(env, phases, stopOnFailure, m + 1, next, i, j);
    }
  }

  /**
   * Run by run, and whatever fails: an heir that reaches its start takes its passed donor's ending
   * world if and only if no phase strictly between them took from the slot or stashed into it.
   */
  lemma HeirTakesDonorsWorldIff(env: Env, phases: seq<SuitePhase>, stopOnFailure: bool, i: nat, j: nat)
    requires i < |phases| && j < |phases| && IsDonor(phases, i, j)
    requires var st := RunSuite(env, phases, stopOnFailure);
             j < |st.records| && i < |st.records| && st.records[i].outcome.Passed?
                 && !st.records[j].obtained.NotReached?
    ensures var st := RunSuite(env, phases, stopOnFailure);
            && st.records[i].ended.Some?
            && (st.records[j].obtained == Took(Stash(i, st.records[i].ended.value))
                <==> UntouchedBetween(phases, st, i + 1, j))
  {
    HeirFateFrom(env, phases, stopOnFailure, 0, FIRST, i, j);
  }

  /** A slot user that passed between donor and heir takes the donor's world out of reach, on every run. */
  lemma CrossedHandoffIsLost(env: Env, phases: seq<SuitePhase>, stopOnFailure: bool, i: nat, k: nat, j: nat)
    requires i < k < j < |phases| && UsesSlot(phases, k)
    requires var st := RunSuite(env, phases, stopOnFailure); j < |st.records| && st.records[k].outcome.Passed?
    ensures var st := RunSuite(env, phases, stopOnFailure);
            st.records[j].obtained.Took? ==> st.records[j].obtained.stash.donor != i
  {
    CrossedFrom(env, phases, stopOnFailure, 0, FIRST, k, j);
  }

  /** If every handoff of a run worked, and phases succeed, then every phase passed. */
  lemma {:induction false} WorkingRunPasses(env: Env, phases: seq<SuitePhase>, stopOnFailure: bool, k: nat,
                                            st: SuiteRun)
    requires ValidPhases(phases, env.profiles) && AllSucceed(env, phases)
    requires k <= |phases| && |st.records| == k && Kept(phases, st) && AllPassed(st)
    requires HandoffWorks(phases, RunFrom(env, phases, stopOnFailure, k, st))
    ensures var fin := RunFrom(env, phases, stopOnFailure, k, st); AllPassed(fin) && |fin.records| == |phases|
    decreases |phases| - k
  {
    assert UniqueProfiles(phases) && !env.stopped(k);
    hide PhaseTurn, Kept, ValidPhases, AllSucceed, HandoffWorks;
    if k < |phases| {
      var next := PhaseTurn(env, phases, k, st);
      if phases[k].world.Inherit? { WorkingHeirFindsWorld(env, phases, stopOnFailure, k, st); }
      SucceedingTurn(env, phases, k, st);
      TurnKeeps(env, phases, k, st);
      WorkingRunPasses(env, phases, stopOnFailure, k + 1, next);
    }
  }

  lemma WorkingHeirFindsWorld(env: Env, phases: seq<SuitePhase>, stopOnFailure: bool, k: nat, st: SuiteRun)
    requires ValidPhases(phases, env.profiles) && !env.stopped(k)
    requires k < |phases| && |st.records| == k && phases[k].world.Inherit?
    requires HandoffWorks(phases, RunFrom(env, phases, stopOnFailure, k, st))
    ensures st.slot.Some?
  {
    var i := DonorExists(phases, env.profiles, k);
    var fin, next := RunFrom(env, phases, stopOnFailure, k, st), PhaseTurn(env, phases, k, st);
    assert fin.records[k].obtained.Took?;
    TurnRecord(env, phases, k, st);
    hide PhaseTurn, ValidPhases, HandoffWorks, Extends;
    assert |next.records| == k + 1;
    if !(stopOnFailure && next.records[k].outcome.Failed?) { RecordsOnlyGrow(env, phases, stopOnFailure, k + 1, next); }
    assert next.records[k] == fin.records[k];
    if phases[k].profile in env.profiles { SlotAfterPhase(env, phases[k], k, Stashes(phases, k), st.slot); }
  }

  /**
   * The exact condition: in a validated suite whose phases succeed, every inheriting phase starts
   * from its donor's ending world if and only if no handoff is crossed by another slot user.
   */
  lemma HandoffWorksIffNonInterleaved(env: Env, phases: seq<SuitePhase>, stopOnFailure: bool)
    requires ValidPhases(phases, env.profiles) && AllSucceed(env, phases)
    ensures HandoffWorks(phases, RunSuite(env, phases, stopOnFailure)) <==> NonInterleaved(phases)
  {
    var st := RunSuite(env, phases, stopOnFailure);
    if NonInterleaved(phases) {
      NonInterleavedHandsOver(env, phases, stopOnFailure);
    }
    if HandoffWorks(phases, st) {
      FirstIsKept(phases);
      WorkingRunPasses(env, phases, stopOnFailure, 0, FIRST);
      forall i, j, k | 0 <= i < |phases| && 0 <= j < |phases| && IsDonor(phases, i, j) && i < k < j
        ensures !UsesSlot(phases, k)
      {
        hide RunFrom, ValidPhases, AllSucceed;
        if UsesSlot(phases, k) { CrossedHandoffIsLost(env, phases, stopOnFailure, i, k, j); }
      }
    }
  }

  // ----- a validated suite that loses a world -----

  function Crossed(a: string, b: string, c: string, d: string): seq<SuitePhase> {
    [SuitePhase(a, [], Fresh, None), SuitePhase(b, [], Fresh, None),
     SuitePhase(c, [a], Inherit, None), SuitePhase(d, [b], Inherit, None)]
  }

  predicate FourNames(a: string, b: string, c: string, d: string, profiles: map<string, Profile>) {
    && a != b && a != c && a != d && b != c && b != d && c != d
    && forall p :: p in [a, b, c, d] ==> p in profiles && IsSingleSetup(profiles[p])
  }

  lemma CrossedIsValid(a: string, b: string, c: string, d: string, profiles: map<string, Profile>)
    requires FourNames(a, b, c, d, profiles)
    ensures ValidPhases(Crossed(a, b, c, d), profiles) && !NonInterleaved(Crossed(a, b, c, d))
    ensures var phases := Crossed(a, b, c, d); Stashes(phases, 0) && Stashes(phases, 1) && !Stashes(phases, 2)
  {
    var phases := Crossed(a, b, c, d);
    assert phases[0].profile == a && phases[1].profile == b;
    assert Declares(phases, 2, a) && Declares(phases, 3, b);
    assert InheritsFrom(phases[2], a) && InheritsFrom(phases[3], b);
    assert IsDonor(phases, 0, 2) && UsesSlot(phases, 1);
    assert SingleSetupIfKnown(profiles, a) && SingleSetupIfKnown(profiles, b);
    assert SingleSetupIfKnown(profiles, c) && SingleSetupIfKnown(profiles, d);
  }

  /** The state after phase `k` of a run that has only passed so far. */
  ghost predicate GoodSoFar(phases: seq<SuitePhase>, k: nat, st: SuiteRun) {
    k <= |phases| && |st.records| == k && Kept(phases, st) && AllPassed(st) && st.code == 0
  }

  lemma GoodTurn(env: Env, phases: seq<SuitePhase>, k: nat, st: SuiteRun)
    requires ValidPhases(phases, env.profiles) && AllSucceed(env, phases) && k < |phases| && GoodSoFar(phases, k, st)
    requires phases[k].world.Inherit? ==> st.slot.Some?
    ensures var next := PhaseTurn(env, phases, k, st);
            && GoodSoFar(phases, k + 1, next) && next.records[..k] == st.records
            && (Stashes(phases, k) ==>
                next.records[k].ended.Some? && next.slot == Some(Stash(k, next.records[k].ended.value)))
            && (phases[k].world.Inherit? ==> next.records[k].obtained == Took(st.slot.value))
            && (phases[k].world.Inherit? && !Stashes(phases, k) ==> next.slot.None?)
  {
    var next := PhaseTurn(env, phases, k, st);
    SucceedingTurn(env, phases, k, st);
    TurnKeeps(env, phases, k, st);
    TurnRecord(env, phases, k, st);
    assert phases[k].profile in env.profiles;
    hide PhaseTurn, ValidPhases, AllSucceed, Kept, RunPhase, Stashes;
    assert next.records[k].outcome.Passed? && next.records[k].code == Some(0);
    if Stashes(phases, k) { PassingDonorStashes(env, phases[k], k, st.slot); }
    if phases[k].world.Inherit? { InheritorTakes(env, phases[k], k, Stashes(phases, k), st.slot); }
  }

  lemma StarvedTurn(env: Env, phases: seq<SuitePhase>, k: nat, st: SuiteRun)
    requires ValidPhases(phases, env.profiles) && AllSucceed(env, phases) && k < |phases| && GoodSoFar(phases, k, st)
    requires phases[k].world.Inherit? && st.slot.None?
    ensures var next := PhaseTurn(env, phases, k, st);
            && |next.records| == k + 1 && next.records[..k] == st.records
            && next.records[k].obtained == FoundEmpty && next.records[k].outcome.Failed? && next.code == 3
  {
    NothingGated(phases, env.profiles, k, st);
    SucceedingPhase(env, phases[k], k, Stashes(phases, k), st.slot);
    assert phases[k].profile in env.profiles;
    hide RunPhase, ValidPhases, AllSucceed, Kept, Gated;
  }

  lemma OneMoreTurn(env: Env, phases: seq<SuitePhase>, k: nat, st: SuiteRun)
    requires k < |phases| && !env.stopped(k)
    ensures var next := PhaseTurn(env, phases, k, st);
            RunFrom(env, phases, false, k, st) == if k + 1 < |phases| then RunFrom(env, phases, false, k + 1, next)
                else next
  {
    hide PhaseTurn;
  }

  /** Two heirs in a row after two donors: the first takes what is stashed, the second finds nothing. */
  lemma HeirsAfterDonors(env: Env, phases: seq<SuitePhase>, st: SuiteRun)
    requires ValidPhases(phases, env.profiles) && AllSucceed(env, phases) && |phases| == 4 && GoodSoFar(phases, 2, st)
    requires phases[2].world.Inherit? && !Stashes(phases, 2) && phases[3].world.Inherit? && st.slot.Some?
    ensures var end := RunFrom(env, phases, false, 2, st);
            && |end.records| == 4 && end.records[..2] == st.records
            && end.records[2].obtained == Took(st.slot.value)
            && end.records[3].obtained == FoundEmpty && end.records[3].outcome.Failed? && end.code == 3
  {
    assert !env.stopped(2) && !env.stopped(3);
    assert |st.records| == 2;
    hide RunFrom, PhaseTurn, ValidPhases, AllSucceed, Stashes, GoodSoFar;
    var s3 := PhaseTurn(env, phases, 2, st);
    GoodTurn(env, phases, 2, st);
    OneMoreTurn(env, phases, 2, st);
    StarvedTurn(env, phases, 3, s3);
    OneMoreTurn(env, phases, 3, s3);
    var end := PhaseTurn(env, phases, 3, s3);
    assert end.records[..2] == end.records[..3][..2] && end.records[2] == end.records[..3][2];
  }

  /**
   * The validator accepts a suite in which two donors are declared before their two heirs: the
   * first heir starts from the second donor's world, and the second heir finds the slot empty.
   */
  lemma CrossedSuiteLosesAWorld(env: Env, a: string, b: string, c: string, d: string)
    requires FourNames(a, b, c, d, env.profiles) && AllSucceed(env, Crossed(a, b, c, d))
    ensures ValidPhases(Crossed(a, b, c, d), env.profiles)
    ensures var st := RunSuite(env, Crossed(a, b, c, d), false);
            && |st.records| == 4 && st.records[1].ended.Some?
            && st.records[2].obtained == Took(Stash(1, st.records[1].ended.value))
            && st.records[3].obtained == FoundEmpty && st.records[3].outcome.Failed? && st.code == 3
  {
    var phases := Crossed(a, b, c, d);
    CrossedIsValid(a, b, c, d, env.profiles);
    FirstIsKept(phases);
    assert !env.stopped(0) && !env.stopped(1) && !env.stopped(2) && !env.stopped(3);
    hide RunFrom, PhaseTurn, ValidPhases, AllSucceed, Stashes, GoodSoFar;
    var s1 := PhaseTurn(env, phases, 0, FIRST);
    GoodTurn(env, phases, 0, FIRST);
    OneMoreTurn(env, phases, 0, FIRST);
    var s2 := PhaseTurn(env, phases, 1, s1);
    GoodTurn(env, phases, 1, s1);
    OneMoreTurn(env, phases, 1, s1);
    HeirsAfterDonors(env, phases, s2);
  }
}
