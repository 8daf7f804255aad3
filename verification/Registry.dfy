/** The in-place form of a suite run: the session slot and the loops over phases and fuzz cases. */
module RegistryModel {
  import opened Prelude
  import opened Outcome
  import opened Validate
  import opened Pipeline
  import Rng

  class Registry {
    const env: Env
    /** The single slot a passing donor leaves its world in. */
    var session: Option<Stash>

    constructor (env: Env)
      ensures this.env == env && session == None
    {
      this.env, session := env, None;
    }

    /** A fresh world from setup, or the donor's world taken out of the slot. */
    method ObtainStartState(plan: SuitePhase, seed: nat) returns (start: Result<World, RunError>, obtained: Obtained)
      modifies this
      ensures plan.world.Fresh? ==>
                start == env.setup(plan.profile, seed) && session == old(session)
                    && obtained == if start.Ok? then Built else NotReached
      ensures plan.world.Inherit? && old(session).None? ==>
              start == Err(NoDonorWorld) && session.None? && obtained == FoundEmpty
      ensures plan.world.Inherit? && old(session).Some? ==>
                start == Ok(old(session).value.world) && session.None? && obtained == Took(old(session).value)
    {
      match plan.world
      case Fresh =>
        start := env.setup(plan.profile, seed);
        obtained := if start.Ok? then Built else NotReached;
      case Inherit =>
        if session.None? {
          return Err(NoDonorWorld), FoundEmpty;
        }
        start, obtained := Ok(session.value.world), Took(session.value);
        session := None;
    }

    /** Obtain the world, patch it, drive the profile over it, and stash a passing world. */
    method RunSingleWorld(plan: SuitePhase, index: nat, seed: nat, stash: bool)
      returns (result: Result<Option<FailureKind>, RunError>, obtained: Obtained, ended: Option<World>)
      modifies this
      ensures PhaseRun(session, obtained, ended, result) == RunSingle(env, plan, index, seed, stash, old(session))
    {
      ended := None;
      var start;
      start, obtained := ObtainStartState(plan, seed);
      if start.Err? {
        return Err(start.error), obtained, None;
      }
      var world := start.value;
      if plan.params.Some? {
        if env.patch.None? {
          return Err(InvalidRun), obtained, None;
        }
        var patched := env.patch.value(world, plan.params.value);
        if patched.None? {
          return Err(SetupFailed), obtained, None;
        }
        world := patched.value;
      }
      var refused := env.decode(plan.profile);
      if refused.Some? {
        return Err(refused.value), obtained, None;
      }
      var (final, failure) := env.drive(plan.profile, seed, world);
      ended := Some(final);
      var exported := env.exportWorld(plan.profile, final);
      if exported.Some? {
        return Err(exported.value), obtained, ended;
      }
      if stash && failure.None? {
        session := Some(Stash(index, final));
      }
      result := Ok(failure);
    }

    /** One fresh world per case, until a case fails. */
    method RunFuzzCases(profile: string, base: Rng.u64, cases: Rng.u64)
        returns (result: Result<Option<FailureKind>, RunError>)
      requires cases > 0
      ensures result == RunCases(env, profile, base, 0, cases)
    {
      var c: nat := 0;
      while c < cases
        invariant c < cases && RunCases(env, profile, base, c, cases) == RunCases(env, profile, base, 0, cases)
        decreases cases - c
      {
        var seed := CaseSeed(base, c);
        var setup := env.setup(profile, seed);
        if setup.Err? {
          return Err(setup.error);
        }
        var failure := env.drive(profile, seed, setup.value).1;
        if failure.Some? || c + 1 == cases {
          return Ok(failure);
        }
        c := c + 1;
      }
    }

    method RunProfile(plan: SuitePhase, index: nat, stash: bool)
      returns (result: Result<Option<FailureKind>, RunError>, obtained: Obtained, ended: Option<World>)
      requires plan.profile in env.profiles
      modifies this
      ensures PhaseRun(session, obtained, ended, result) == RunPhase(env, plan, index, stash, old(session))
    {
      hide RunSingle, RunCases;
      var profile := env.profiles[plan.profile];
      result, obtained, ended := Err(InvalidRun), NotReached, None;
      if !env.registered {
        return Err(UnknownHarness), NotReached, None;
      }
      if profile.Fuzz? && Cases(env, profile) == 0 {
        return;
      }
      var early := env.precheck(plan.profile);
      if early.Some? {
        return Err(early.value), NotReached, None;
      }
      var base := env.seed(plan.profile);
      if !profile.Fuzz? {
        result, obtained, ended := RunSingleWorld(plan, index, base, stash);
        return;
      }
      var cases := Cases(env, profile);
      var handoff := plan.world.Inherit? || stash || plan.params.Some?;
      if !handoff {
        obtained := Built;
        result := RunFuzzCases(plan.profile, base, cases);
      } else if cases == 1 {
        result, obtained, ended := RunSingleWorld(plan, index, CaseSeed(base, 0), stash);
      }
    }

    /** Run the phases in order: gate each on its needs, fold the codes, stop early when asked to. */
    method RunSelected(phases: seq<SuitePhase>, stopOnFailure: bool) returns (code: nat, ghost run: SuiteRun)
      modifies this
      ensures run == RunFrom(env, phases, stopOnFailure, 0, FIRST.(slot := old(session)))
      ensures code == run.code && session == run.slot
      ensures CodeTells(run)
    {
      SuiteCodeMeans(env, phases, stopOnFailure, session);
      hide RunPhase, Gated, CodeTells;
      code := 0;
      var outcomes: map<string, PhaseOutcome> := map[];
      ghost var records: seq<PhaseRecord> := [];
      ghost var goal := RunFrom(env, phases, stopOnFailure, 0, FIRST.(slot := session));
      for i := 0 to |phases|
        invariant RunFrom(env, phases, stopOnFailure, i, SuiteRun(session, outcomes, code, records)) == goal
      {
        ghost var before := SuiteRun(session, outcomes, code, records);
        if env.stopped(i) {
          run := before;
          return;
        }
        var plan := phases[i];
        var outcome, own, obtained, ended := PhaseOutcome.Skipped, None, NotReached, None;
        ghost var report := None;
        if !Gated(outcomes, plan) {
          if plan.profile !in env.profiles {
            outcome, own := Failed, Some(3);
          } else {
            var result;
            result, obtained, ended := RunProfile(plan, i, Stashes(phases, i));
            report, own := Some(result), Some(ResultCode(result));
            outcome := if ResultCode(result) == 0 then Passed else Failed;
          }
        }
        outcomes := outcomes[plan.profile := outcome];
        if own.Some? {
          code := Worse(code, own.value);
        }
        records := records + [PhaseRecord(outcome, own, report, obtained, ended)];
        ghost var after := SuiteRun(session, outcomes, code, records);
        assert after == PhaseTurn(env, phases, i, before);
        if stopOnFailure && outcome.Failed? {
          run := after;
          return;
        }
      }
      run := SuiteRun(session, outcomes, code, records);
    }
  }
}
