/**
 * The runner of `crates/harness/src/runner.rs` in its own form: an object holding the live state
 * and the generator, whose drivers update both in place. Each driver is proved to do what its
 * specification in `Driver` and `Endurance` says.
 */
module RunnerModel {
  import opened Prelude
  import opened Outcome
  import opened Rng
  import opened Driver
  import opened Endurance
  import opened Shrink
  import Replay
  import Mix

  const CASE: string := "case"
  const REPLAY: string := "replay"
  const DEFAULT_SHRINK_LIMIT: nat := 256

  const EMPTY_MIX: FailureKind :=
    Infra("empty op-kind mix: no kind can ever be drawn (empty kind list or all static weights zero)")

  /** The report of a mix that can never draw anything. */
  ghost function EmptyMixReport(h: Harness, seed: nat, mode: string): RunReport {
    RunReport(seed, mode, 0, Seed(Names(h)).TotalSkipped(), Seed(Names(h)),
              Some(Driver.Failure(0, None, [], EMPTY_MIX)))
  }

  lemma EmptyMixSkipsAreReasons(h: Harness, seed: nat, mode: string)
    ensures var r := EmptyMixReport(h, seed, mode);
            && r.skipped == r.coverage.TotalReasons()
            && r.steps == 0 && r.failure.Some? && r.failure.value.kind.Infra?
            && r.failure.value.step == 0 && r.failure.value.op.None? && r.failure.value.history == []
  {
    SkipCountIsReasonCount(Seed(Names(h)));
  }

  /** Re-driving `ops` from `start` fails in the same way as `kind`. */
  function FailsAlike(h: Harness, every: nat, start: State, rng: Prng, kind: FailureKind): seq<Op> -> bool {
    (ops: seq<Op>) =>
      var failure := DriveFixed(h, every, start, rng, ops).Failure();
      failure.Some? && SameFailure(failure.value, kind)
  }

  /** Shrinking `failing`: search for less that still fails as the whole does; nothing to do if it passes. */
  function ShrinkFrom(h: Harness, every: nat, start: State, rng: Prng, failing: seq<Op>, limit: nat): Search<Op> {
    match DriveFixed(h, every, start, rng, failing).Failure()
    case None => Search(failing, limit, false)
    case Some(kind) => Minimize(FailsAlike(h, every, start, rng, kind), failing, limit)
  }

  /** The report with `history` as the history of its failure, if it has one. */
  function Showing(report: RunReport, history: seq<Op>): RunReport {
    if report.failure.None? then report else report.(failure := Some(report.failure.value.(history := history)))
  }

  /** The empty list passes, so it fails like nothing. */
  lemma EmptyListPasses(h: Harness, every: nat, start: State, rng: Prng, kind: FailureKind)
    ensures DriveFixed(h, every, start, rng, []).ending.Passed?
    ensures !FailsAlike(h, every, start, rng, kind)([])
  {
  }

  /**
   * Shrinking a failing sequence is sound for every harness and every budget: the result is a
   * non-empty order-preserving part that fails the same way, replays stay within the limit and
   * within `ReplayBound`, and it is one-minimal when failure is monotone and the budget lasts.
   */
  lemma ShrinkingIsSound(h: Harness, every: nat, start: State, rng: Prng, failing: seq<Op>, limit: nat,
                         kind: FailureKind)
    requires DriveFixed(h, every, start, rng, failing).Failure() == Some(kind)
    ensures var fails := FailsAlike(h, every, start, rng, kind);
            var r := ShrinkFrom(h, every, start, rng, failing, limit);
            && failing != []
            && Candidate(fails, failing, r.current)
            && r.left <= limit && limit - r.left <= ReplayBound(|failing|)
            && (r.exhausted ==> r.left == 0 && limit < ReplayBound(|failing|))
            && (!r.exhausted && NothingFreed(fails, failing) ==> OneMinimal(fails, r.current))
            && (Monotone(fails, failing) ==> NothingFreed(fails, failing))
  {
    EmptyListPasses(h, every, start, rng, kind);
    MinimizeIsSound(FailsAlike(h, every, start, rng, kind), failing, limit);
  }

  /** The reported failure has come again: the same bug, the same invariant, or again the infrastructure. */
  ghost predicate CameAgain(kind: FailureKind, again: Option<FailureKind>) {
    || (kind.Bug? && again == Some(Bug(kind.detail)))
    || (kind.Invariant? && exists detail :: again == Some(Invariant(kind.name, detail)))
    || (kind.Infra? && exists detail :: again == Some(Infra(detail)))
  }

  lemma AcceptedExactly(again: Option<FailureKind>, kind: FailureKind)
    ensures (again.Some? && SameFailure(again.value, kind)) <==> CameAgain(kind, again)
  {
    if again.Some? {
      match again.value
      case Bug(_) =>
      case Invariant(n, detail) => assert again == Some(Invariant(n, detail));
      case Infra(detail) => assert again == Some(Infra(detail));
    }
  }

  lemma CandidateVerdict(h: Harness, every: nat, start: State, rng: Prng, kind: FailureKind, ops: seq<Op>)
    ensures FailsAlike(h, every, start, rng, kind)(ops)
       <==> CameAgain(kind, DriveFixed(h, every, start, rng, ops).Failure())
  {
    AcceptedExactly(DriveFixed(h, every, start, rng, ops).Failure(), kind);
    hide Driver.Drive, CameAgain, SameFailure;
  }

  /**
   * What the search accepts: a candidate is kept exactly when it re-drives to a bug with the same
   * detail, to an invariant failure of the same name whatever its detail, or to any infrastructure
   * failure if that is what the whole list fails with.
   */
  lemma ShrinkingSearchesForTheSameFailure(h: Harness, every: nat, start: State, rng: Prng, failing: seq<Op>,
                                           limit: nat, kind: FailureKind)
    requires DriveFixed(h, every, start, rng, failing).Failure() == Some(kind)
    ensures exists fails: seq<Op> -> bool ::
              && ShrinkFrom(h, every, start, rng, failing, limit) == Minimize(fails, failing, limit)
              && forall ops :: fails(ops) <==> CameAgain(kind, DriveFixed(h, every, start, rng, ops).Failure())
  {
    hide CameAgain, Driver.Drive, FailsAlike, Minimize;
    var fails := FailsAlike(h, every, start, rng, kind);
    forall ops ensures fails(ops) <==> CameAgain(kind, DriveFixed(h, every, start, rng, ops).Failure()) {
      CandidateVerdict(h, every, start, rng, kind, ops);
    }
    assert ShrinkFrom(h, every, start, rng, failing, limit) == Minimize(fails, failing, limit);
  }

  /** What shrinking shows fails with the very same bug, the same invariant, or again with the infrastructure. */
  lemma ShownFailureIsTheSame(h: Harness, every: nat, start: State, rng: Prng, history: seq<Op>, limit: nat)
    ensures var shown := ShrinkFrom(h, every, start, rng, history, limit).current;
            var again := DriveFixed(h, every, start, rng, shown).Failure();
            match DriveFixed(h, every, start, rng, history).Failure()
            case None => shown == history && again.None?
            case Some(Bug(detail)) => again == Some(Bug(detail))
            case Some(Invariant(name, _)) => again.Some? && again.value.Invariant? && again.value.name == name
            case Some(Infra(_)) => again.Some? && again.value.Infra?
  {
    var replay := DriveFixed(h, every, start, rng, history).Failure();
    if replay.Some? { ShownFailsAlikeIff(h, every, start, rng, history, limit, replay.value); }
    hide Driver.Drive, ShrinkFrom;
  }

  lemma FixedLeavesRng(h: Harness, every: nat, start: State, rng: Prng, ops: seq<Op>)
    ensures DriveFixed(h, every, start, rng, ops).rng == rng
  {
    Replay.FixedRun(h, every, Start(h, start, rng, Fixed(ops)));
  }

  class Runner {
    const harness: Harness
    const seed: nat
    const rng: Generator
    var state: Option<State>

    /** A shell: harness, seed and seeded generator, no live state yet. */
    constructor (harness: Harness, seed: nat, seeded: Prng)
      ensures this.harness == harness && this.seed == seed && state.None?
      ensures fresh(rng) && rng.Value() == seeded
    {
      this.harness, this.seed := harness, seed;
      rng := new Generator(seeded);
      state := None;
    }

    /** Load the live state a driver starts from. */
    method Setup(s: State)
      modifies this
      ensures state == Some(s)
    {
      state := Some(s);
    }

    // ----- shared machinery -----

    method Apply(op: Op) returns (result: Result<Verdict, FailureKind>)
      requires state.Some?
      modifies this
      ensures var (s, applied) := harness.apply(old(state.value), op);
              && state == Some(s)
              && result == (match applied case Ok(v) => Ok(v) case Err(e) => Err(KindOf(e)))
    {
      var (s, applied) := harness.apply(state.value, op);
      state := Some(s);
      match applied {
        case Ok(verdict) => result := Ok(verdict);
        case Err(BugError(m)) => result := Err(Bug(m));
        case Err(InfraError(m)) => result := Err(Infra(m));
      }
    }

    method CheckAll(coverage: CoverageRecorder) returns (failure: Option<FailureKind>)
      requires state.Some?
      modifies this, coverage
      ensures state.Some?
      ensures Stepped(state.value, coverage.Value(), failure) == Sweep(harness, old(state.value), old(coverage.Value()))
    {
      var invs := harness.invariants;
      var i := 0;
      while i < |invs|
        invariant 0 <= i <= |invs| && state.Some?
        invariant SweepFrom(harness, invs[i..], state.value, coverage.Value())
               == Sweep(harness, old(state.value), old(coverage.Value()))
      {
        var inv := invs[i];
        var name := harness.name(inv);
        var (s, outcome) := harness.check(state.value, inv);
        state := Some(s);
        assert invs[i..][1..] == invs[i + 1..];
        match outcome {
          case Held =>
            coverage.RecordHeld(name);
          case Skipped(why) =>
            coverage.RecordSkipped(name, why);
          case Violated(detail) =>
            coverage.RecordViolated(name);
            return Some(Invariant(name, detail));
        }
        i := i + 1;
      }
      return None;
    }

    method TakeStep(op: Op, check: bool, coverage: CoverageRecorder) returns (failure: Option<FailureKind>)
      requires state.Some?
      modifies this, coverage
      ensures state.Some?
      ensures Stepped(state.value, coverage.Value(), failure)
           == Step(harness, old(state.value), op, check, old(coverage.Value()))
    {
      var applied := Apply(op);
      if applied.Err? {
        return Some(applied.error);
      }
      failure := None;
      if check {
        failure := CheckAll(coverage);
      }
    }

    method NextOp(source: OpSource) returns (draw: Draw)
      requires state.Some? && source.Valid()
      modifies rng
      ensures draw == Next(harness, source, state.value, old(rng.Value()))
      ensures rng.Value() == if draw.Drawn? then draw.rng else old(rng.Value())
    {
      match source {
        case Fixed(ops) =>
          if ops == [] {
            return Exhausted;
          }
          return Drawn(ops[0], Fixed(ops[1..]), rng.Value());
        case Generated(kinds, statics, remaining) =>
          if remaining == 0 {
            return Exhausted;
          }
          var weights := Weights(harness, state.value, kinds, statics);
          if forall i :: 0 <= i < |weights| ==> weights[i] == 0 {
            return Undrawable;
          }
          SumZeroIffAllZero(weights);
          DrawnBucketHasWeight(rng.Value(), weights);
          var idx := rng.Weighted(weights);
          var (op, stream) := harness.generate(rng.Value(), state.value, kinds[idx]);
          rng.stream := stream;
          return Drawn(op, Generated(kinds, statics, remaining - 1), rng.Value());
      }
    }

    method MakeReport(mode: string, steps: nat, coverage: CoverageRecorder, failure: Option<Driver.Failure>)
      returns (report: RunReport)
      ensures report == RunReport(seed, mode, steps, coverage.Value().TotalSkipped(), coverage.Value(), failure)
    {
      var skipped := coverage.TotalSkipped();
      report := RunReport(seed, mode, steps, skipped, coverage.Value(), failure);
    }

    // ----- the sequence driver -----

    method DriveSource(start: OpSource, every: nat, mode: string) returns (report: RunReport)
      requires state.Some? && start.Valid()
      modifies this, rng
      ensures var e := Drive(harness, every, Start(harness, old(state.value), old(rng.Value()), start));
              report == Report(seed, mode, e) && state == Some(e.state) && rng.Value() == e.rng
    {
      ghost var first := Start(harness, state.value, rng.Value(), start);
      var coverage := new CoverageRecorder(Names(harness));
      var source, steps, history := start, 0, [];
      while true
        invariant state.Some? && source.Valid()
        invariant Drive(harness, every, Progress(state.value, rng.Value(), source, steps, coverage.Value(), history))
               == Drive(harness, every, first)
        decreases source.Size()
      {
        hide Next, Step, Report;
        ghost var before := Progress(state.value, rng.Value(), source, steps, coverage.Value(), history);
        var draw := NextOp(source);
        match draw {
          case Exhausted =>
            assert Drive(harness, every, first) == Leave(before, Passed);
            report := MakeReport(mode, steps, coverage, None);
            ReportIs(mode, Leave(before, Passed));
            return;
          case Undrawable =>
            assert Drive(harness, every, first) == Leave(before, SourceDry);
            report := MakeReport(mode, steps, coverage,
                                 Some(Driver.Failure(steps, Last(history), history, UNDRAWABLE)));
            ReportIs(mode, Leave(before, SourceDry));
            return;
          case Drawn(op, rest, _) =>
            history, steps, source := history + [op], steps + 1, rest;
            var failure := TakeStep(op, Due(every, steps), coverage);
            ghost var after := Progress(state.value, rng.Value(), source, steps, coverage.Value(), history);
            if failure.Some? {
              assert Turn(harness, every, before) == Done(Leave(after, StepFailed(op, failure.value)));
              report := MakeReport(mode, steps, coverage,
                                   Some(Driver.Failure(steps, Some(op), history, failure.value)));
              ReportIs(mode, Leave(after, StepFailed(op, failure.value)));
              return;
            }
            assert Turn(harness, every, before) == Continue(after);
        }
      }
    }

    lemma ReportIs(mode: string, e: Exit)
      ensures Report(seed, mode, e)
           == RunReport(seed, mode, e.steps, e.coverage.TotalSkipped(), e.coverage,
                        if e.ending.Passed? then None
                        else Some(Driver.Failure(e.steps, e.FailedOp(), e.history, e.Failure().value)))
    {
    }

    /** Drive one random sequence of `ops` operations under `mix`. */
    method RunWith(ops: nat, mix: KindMix, every: nat, mode: string) returns (report: RunReport)
      requires state.Some?
      modifies this, rng
      ensures match ResolveMix(harness, mix, ops)
              case None => report == EmptyMixReport(harness, seed, mode) && state == old(state)
                  && rng.Value() == old(rng.Value())
              case Some(source) =>
                var e := Drive(harness, every, Start(harness, old(state.value), old(rng.Value()), source));
                report == Report(seed, mode, e) && state == Some(e.state) && rng.Value() == e.rng
      ensures report.failure.Some? ==>
                Mix.AllDrawn(harness, Mix.PairsOf(harness, mix), report.failure.value.history)
    {
      ResolveMixIsValid(harness, mix, ops);
      if ResolveMix(harness, mix, ops).Some? {
        Mix.RunDrawsFromMix(harness, every, mix, ops, state.value, rng.Value());
      }
      hide Driver.Drive, Mix.SomehowDrawn, ResolveMix;
      var source := ResolveMix(harness, mix, ops);
      if source.None? {
        var coverage := new CoverageRecorder(Names(harness));
        report := MakeReport(mode, 0, coverage, Some(Driver.Failure(0, None, [], EMPTY_MIX)));
        return;
      }
      report := DriveSource(source.value, every, mode);
    }

    method RunFixed(ops: seq<Op>, mode: string, every: nat) returns (report: RunReport)
      requires state.Some?
      modifies this, rng
      ensures var e := DriveFixed(harness, every, old(state.value), old(rng.Value()), ops);
              report == Report(seed, mode, e) && state == Some(e.state)
      ensures rng.Value() == old(rng.Value())
    {
      FixedLeavesRng(harness, every, state.value, rng.Value(), ops);
      report := DriveSource(Fixed(ops), every, mode);
    }

    /** Replay a recorded history, checking after every operation. */
    method ReplayHistory(history: seq<Op>) returns (report: RunReport)
      requires state.Some?
      modifies this, rng
      ensures var e := DriveFixed(harness, 1, old(state.value), old(rng.Value()), history);
              report == Report(seed, REPLAY, e) && state == Some(e.state)
    {
      report := RunFixed(history, REPLAY, 1);
    }

    // ----- the scenario driver -----

    method RunSteps(plan: seq<ScenarioStep>, every: nat) returns (report: RunReport)
      requires state.Some?
      modifies this
      ensures var e := DriveSteps(harness, every, plan, old(state.value), rng.Value(), 0, Seed(Names(harness)), []);
              report == Report(seed, CASE, e) && state == Some(e.state)
    {
      ghost var all := DriveSteps(harness, every, plan, state.value, rng.Value(), 0, Seed(Names(harness)), []);
      var coverage := new CoverageRecorder(Names(harness));
      var count, history := 0, [];
      while count < |plan|
        invariant 0 <= count <= |plan| && state.Some?
        invariant DriveSteps(harness, every, plan[count..], state.value, rng.Value(), count, coverage.Value(), history)
                  == all
      {
        hide Sweep, Report;
        var step := plan[count];
        assert plan[count..][1..] == plan[count + 1..];
        history, count := history + [step.op], count + 1;
        ghost var before := Stepped(state.value, coverage.Value(), None);
        var applied := Apply(step.op);
        var failure := None;
        if applied.Err? {
          failure := Some(applied.error);
        } else if Mismatch(step.wanted, applied.value) {
          failure := Some(Bug(MismatchText(step.wanted, count)));
        } else if step.check && Due(every, count) {
          failure := CheckAll(coverage);
        }
        assert Stepped(state.value, coverage.Value(), failure)
            == ScenarioStepped(harness, before.state, step, count, every, before.coverage);
        if failure.Some? {
          report := MakeReport(CASE, count, coverage,
                               Some(Driver.Failure(count, Some(step.op), history, failure.value)));
          ReportIs(CASE, all);
          return;
        }
      }
      report := MakeReport(CASE, count, coverage, None);
    }

    /** A plain list as a scenario: the fixed driver at cadence 1. */
    method RunScenario(ops: seq<Op>) returns (report: RunReport)
      requires state.Some?
      modifies this
      ensures var e := DriveFixed(harness, 1, old(state.value), rng.Value(), ops);
              report == Report(seed, CASE, e) && state == Some(e.state)
    {
      Replay.ScenarioAgrees(harness, ops, state.value, rng.Value());
      report := RunSteps(AnySteps(ops), 1);
    }

    // ----- the endurance driver -----

    method RunEndurance(cfg: EnduranceConfig, mix: KindMix) returns (report: RunReport)
      requires state.Some?
      modifies this, rng
      ensures match ResolveMix(harness, mix, cfg.Remaining())
              case None =>
                report == EmptyMixReport(harness, seed, "endurance") && state == old(state)
                    && rng.Value() == old(rng.Value())
              case Some(source) =>
                var e := Endure(harness, cfg, FirstLap(harness, old(state.value), old(rng.Value()), source));
                report == EnduranceReport(seed, e) && state == Some(e.lap.p.state) && rng.Value() == e.lap.p.rng
    {
      hide Next, Step, Pace, Driver.Sweep, Endure;
      ResolveMixIsValid(harness, mix, cfg.Remaining());
      var resolved := ResolveMix(harness, mix, cfg.Remaining());
      var coverage := new CoverageRecorder(Names(harness));
      if resolved.None? {
        report := MakeReport("endurance", 0, coverage, Some(Driver.Failure(0, None, [], EMPTY_MIX)));
        return;
      }
      ghost var first := FirstLap(harness, state.value, rng.Value(), resolved.value);
      var source, steps, history, streak := resolved.value, 0, [], 0;
      ghost var log := [];
      ghost var lap := first;
      while true
        invariant state.Some? && source.Valid()
        invariant lap == Lap(Progress(state.value, rng.Value(), source, steps, coverage.Value(), history), streak, log)
        invariant Endure(harness, cfg, lap) == Endure(harness, cfg, first)
        decreases source.Size()
      {
        hide EnduranceReport;
        EndureStops(harness, cfg, lap);
        if cfg.haltsAt(steps) {
          break;
        }
        var draw := NextOp(source);
        if draw.Exhausted? {
          break;
        }
        if draw.Undrawable? {
          report := MakeReport("endurance", steps, coverage,
                               Some(Driver.Failure(steps, Last(history), history, UNDRAWABLE)));
          EnduranceReportIs(EnduranceExit(lap, NothingDrawable));
          return;
        }
        var op := draw.op;
        history, steps, source := history + [op], steps + 1, draw.source;
        var failure := TakeStep(op, Due(cfg.checkEvery, steps), coverage);
        var fatal := failure.Some? && !(failure.value.Infra? && streak < cfg.maxConsecutiveInfra);
        if failure.None? {
          streak := 0;
        } else if !fatal {
          streak := streak + 1;
        }
        log := log + [GradeOf(failure)];
        ghost var after := Lap(Progress(state.value, rng.Value(), source, steps, coverage.Value(), history), streak,
                               log);
        EndureSteps(harness, cfg, lap, after, failure);
        if fatal {
          report := MakeReport("endurance", steps, coverage,
                               Some(Driver.Failure(steps, Some(op), history, failure.value)));
          EnduranceReportIs(EnduranceExit(after, StepFatal(op, failure.value)));
          return;
        }
        var failed := PaceLap(cfg);
        lap := Lap(Progress(state.value, rng.Value(), source, steps, coverage.Value(), history), streak, log);
        assert Paced(harness, cfg, after)
            == if failed.Some? then Finish(EnduranceExit(lap, AdvanceFailed(failed.value))) else NextLap(lap);
        if failed.Some? {
          report := MakeReport("endurance", steps, coverage,
                               Some(Driver.Failure(steps, Last(history), history, Infra(failed.value))));
          EnduranceReportIs(EnduranceExit(lap, AdvanceFailed(failed.value)));
          return;
        }
      }
      var failure := CheckAll(coverage);
      report := MakeReport("endurance", steps, coverage,
                           if failure.Some? then Some(Driver.Failure(steps, Last(history), history, failure.value))
                               else None);
    }

    lemma EnduranceReportIs(exit: EnduranceExit)
      ensures EnduranceReport(seed, exit)
           == RunReport(seed, "endurance", exit.lap.p.steps, exit.lap.p.coverage.TotalSkipped(), exit.lap.p.coverage,
                        match exit.ending.Failure()
                        case None => Option.None
                        case Some(kind) => Option.Some(Driver.Failure(exit.lap.p.steps, exit.FailedOp(),
                                                                      exit.lap.p.history, kind)))
    {
    }

    method DrawBelow(n: nat) returns (value: nat)
      modifies rng
      ensures (value, rng.Value()) == Below(old(rng.Value()), n)
    {
      if n == 0 {
        return 0;
      }
      var (drawn, stream) := rng.genRange(rng.stream, n);
      rng.stream := stream;
      value := drawn;
    }

    method PaceLap(cfg: EnduranceConfig) returns (failed: Option<string>)
      requires state.Some?
      modifies this, rng
      ensures state.Some?
      ensures (state.value, rng.Value(), failed) == Pace(harness, cfg, old(state.value), old(rng.Value()))
    {
      failed := None;
      if cfg.advanceBlocks.Some? {
        var extra := 0;
        if cfg.blockJitter > 0 {
          extra := DrawBelow(cfg.blockJitter + 1);
        }
        var (s, outcome) := harness.advance(state.value, cfg.advanceBlocks.value + extra);
        state := Some(s);
        failed := outcome;
        if failed.Some? {
          return;
        }
      }
      if cfg.maxDelayNanos > 0 {
        var _ := DrawBelow(cfg.maxDelayNanos / NANOS_PER_MILLI + 1);
      }
    }

    // ----- shrinking -----

    /** Run one candidate against the budget; `None` when the budget is used up. */
    method TryCandidate(candidate: seq<Op>, kind: FailureKind, every: nat, start: State, budget: nat)
      returns (fails: Option<bool>, left: nat)
      modifies this, rng
      ensures rng.Value() == old(rng.Value())
      ensures budget == 0 ==> fails.None? && left == 0
      ensures budget > 0 ==>
              fails == Some(FailsAlike(harness, every, start, rng.Value(), kind)(candidate)) && left == budget - 1
      ensures budget > 0 ==>
              (fails.value <==> CameAgain(kind, DriveFixed(harness, every, start, rng.Value(), candidate).Failure()))
    {
      if budget == 0 {
        return None, 0;
      }
      Setup(start);
      AcceptedExactly(DriveFixed(harness, every, start, rng.Value(), candidate).Failure(), kind);
      var report := RunFixed(candidate, CASE, every);
      fails := Some(report.failure.Some? && SameFailure(report.failure.value.kind, kind));
      left := budget - 1;
    }

    /** One window pass: try to drop each window of `size` operations in turn. */
    method DropWindows(failing: seq<Op>, size: nat, kind: FailureKind, every: nat, start: State, budget: nat)
      returns (current: seq<Op>, left: nat, exhausted: bool)
      requires size >= 1
      modifies this, rng
      ensures rng.Value() == old(rng.Value()) && |current| <= |failing|
      ensures Search(current, left, exhausted)
           == WindowsFrom(FailsAlike(harness, every, start, rng.Value(), kind), failing, size, 0, budget)
    {
      hide FailsAlike, Driver.Drive;
      ghost var gen := rng.Value();
      ghost var fails := FailsAlike(harness, every, start, gen, kind);
      current, left, exhausted := failing, budget, false;
      var i := 0;
      while i < |current|
        invariant rng.Value() == gen && !exhausted && |current| <= |failing|
        invariant WindowsFrom(fails, current, size, i, left) == WindowsFrom(fails, failing, size, 0, budget)
        decreases if i < |current| then |current| - i else 0
      {
        var end := Min(i + size, |current|);
        var candidate := Without(current, i, end);
        if candidate != [] {
          var verdict, rest := TryCandidate(candidate, kind, every, start, left);
          if verdict.None? {
            exhausted := true;
            return;
          }
          left := rest;
          if verdict.value {
            current := candidate;
            continue;
          }
        }
        i := i + size;
      }
    }

    /** The single-operation pass: try each index once, staying on it after a successful drop. */
    method DropSingles(failing: seq<Op>, kind: FailureKind, every: nat, start: State, budget: nat)
      returns (current: seq<Op>, left: nat, exhausted: bool)
      modifies this, rng
      ensures rng.Value() == old(rng.Value())
      ensures Search(current, left, exhausted)
           == SinglesFrom(FailsAlike(harness, every, start, rng.Value(), kind), failing, 0, budget)
    {
      hide FailsAlike, Driver.Drive;
      ghost var gen := rng.Value();
      ghost var fails := FailsAlike(harness, every, start, gen, kind);
      current, left, exhausted := failing, budget, false;
      var i := 0;
      while i < |current| && |current| > 1
        invariant rng.Value() == gen && !exhausted && 0 <= i <= |current|
        invariant SinglesFrom(fails, current, i, left) == SinglesFrom(fails, failing, 0, budget)
        decreases |current| - i
      {
        var candidate := RemoveAt(current, i);
        var verdict, rest := TryCandidate(candidate, kind, every, start, left);
        if verdict.None? {
          exhausted := true;
          return;
        }
        left := rest;
        if verdict.value {
          current := candidate;
          continue;
        }
        i := i + 1;
      }
    }

    /**
     * Shrink a failing sequence: drop windows of halving size, then single operations, keeping a
     * candidate only while it still fails the same way.
     */
    method ShrinkInner(failing: seq<Op>, every: nat, limit: nat, start: State)
      returns (current: seq<Op>, left: nat, exhausted: bool)
      modifies this, rng
      ensures rng.Value() == old(rng.Value())
      ensures Search(current, left, exhausted) == ShrinkFrom(harness, every, start, rng.Value(), failing, limit)
    {
      hide FailsAlike, Driver.Drive, WindowsFrom, SinglesFrom;
      ghost var gen := rng.Value();
      Setup(start);
      var reference := RunFixed(failing, CASE, every);
      if reference.failure.None? {
        return failing, limit, false;
      }
      var kind := reference.failure.value.kind;
      ghost var fails := FailsAlike(harness, every, start, gen, kind);
      current, left, exhausted := failing, limit, false;
      var size: nat := |current| / 2;
      while size >= 1 && |current| > 1
        invariant rng.Value() == gen && !exhausted
        invariant HalvingFrom(fails, current, size, left) == HalvingFrom(fails, failing, |failing| / 2, limit)
        decreases size
      {
        current, left, exhausted := DropWindows(current, size, kind, every, start, left);
        if exhausted {
          return;
        }
        size := size / 2;
      }
      current, left, exhausted := DropSingles(current, kind, every, start, left);
    }

    /** Run a fixed sequence and, if it fails, report the minimized sequence driven once more. */
    method RunAndShrink(ops: seq<Op>, every: nat, rebuilt: State) returns (report: RunReport)
      requires state.Some?
      modifies this, rng
      ensures var e := DriveFixed(harness, every, old(state.value), rng.Value(), ops);
              && (e.ending.Passed? ==> report == Report(seed, CASE, e))
              && (e.ending.StepFailed? ==>
                    var r := ShrinkFrom(harness, every, rebuilt, rng.Value(), e.history, DEFAULT_SHRINK_LIMIT);
                    var again := DriveFixed(harness, every, rebuilt, rng.Value(), r.current);
                    report == Showing(Report(seed, CASE, again), r.current))
    {
      ghost var gen := rng.Value();
      ghost var e := DriveFixed(harness, every, state.value, gen, ops);
      Replay.FixedRun(harness, every, Start(harness, state.value, gen, Fixed(ops)));
      report := RunFixed(ops, CASE, every);
      if report.failure.None? {
        return;
      }
      var minimized, _, _ := ShrinkInner(report.failure.value.history, every, DEFAULT_SHRINK_LIMIT, rebuilt);
      Setup(rebuilt);
      report := RunFixed(minimized, CASE, every);
      report := Showing(report, minimized);
    }
  }

  /**
   * Shrink a failed run's history before it is reported, unless shrinking is off or the run did not
   * start from a plain setup; every other field of the failure stays as it was.
   */
  method MaybeShrink(harness: Harness, report: RunReport, enabled: bool, inherited: bool, patched: bool,
                     every: nat, limit: nat, rebuilt: State, seeded: Prng)
    returns (shown: RunReport, shrunk: bool)
    ensures shrunk <==> enabled && report.failure.Some? && !inherited && !patched
    ensures !shrunk ==> shown == report
    ensures shrunk ==>
              && report.failure.Some?
              && var r := ShrinkFrom(harness, every, rebuilt, seeded, report.failure.value.history, limit);
                 shown == report.(failure := Some(report.failure.value.(history := r.current)))
  {
    if !enabled || report.failure.None? || inherited || patched {
      return report, false;
    }
    hide ShrinkFrom;
    var failure := report.failure.value;
    var runner := new Runner(harness, report.seed, seeded);
    var minimized, _, _ := runner.ShrinkInner(failure.history, every, limit, rebuilt);
    shown := Showing(report, minimized);
    shrunk := true;
  }

  /** What is shown for a history fails like `kind` exactly when the history itself does, whatever is dropped. */
  lemma ShownFailsAlikeIff(h: Harness, every: nat, start: State, rng: Prng, history: seq<Op>, limit: nat,
                           kind: FailureKind)
    ensures var replay := DriveFixed(h, every, start, rng, history).Failure();
            var r := ShrinkFrom(h, every, start, rng, history, limit);
            && (FailsAlike(h, every, start, rng, kind)(r.current) <==> replay.Some? && SameFailure(replay.value, kind))
            && (replay.None? ==> r == Search(history, limit, false))
  {
    hide Driver.Drive;
    var replay := DriveFixed(h, every, start, rng, history).Failure();
    if replay.Some? { ShrinkingIsSound(h, every, start, rng, history, limit, replay.value); }
    hide Minimize;
  }

  /** A run that ended because nothing was drawable is shown with its whole history, which re-drives to a pass. */
  lemma UndrawableHistoryIsShownWhole(h: Harness, every: nat, state: State, rng: Prng, source: OpSource, rng': Prng,
                                      limit: nat)
    requires source.Valid()
    requires Drive(h, every, Start(h, state, rng, source)).ending.SourceDry?
    ensures var e := Drive(h, every, Start(h, state, rng, source));
            && DriveFixed(h, every, state, rng', e.history).ending.Passed?
            && ShrinkFrom(h, every, state, rng', e.history, limit) == Search(e.history, limit, false)
            && !FailsAlike(h, every, state, rng', UNDRAWABLE)(e.history)
  {
    Replay.ReplayReproduces(h, every, state, rng, source, rng');
    hide Driver.Drive, Minimize;
  }

  /**
   * From run to report: the history shown for a failed generated run is a non-empty part of what
   * was run and fails as that run reported; with a sufficient limit and a monotone failure no
   * operation of it can go.
   */
  lemma ShownHistoryFailsAsReported(h: Harness, every: nat, state: State, rng: Prng, source: OpSource, rng': Prng,
                                    limit: nat)
    requires source.Valid()
    requires Drive(h, every, Start(h, state, rng, source)).ending.StepFailed?
    ensures var e := Drive(h, every, Start(h, state, rng, source));
            var fails := FailsAlike(h, every, state, rng', e.ending.kind);
            var shown := ShrinkFrom(h, every, state, rng', e.history, limit).current;
            && shown != [] && IsSubsequence(shown, e.history) && fails(shown)
            && CameAgain(e.ending.kind, DriveFixed(h, every, state, rng', shown).Failure())
            && (ReplayBound(|e.history|) <= limit && NothingFreed(fails, e.history) ==> OneMinimal(fails, shown))
            && (Monotone(fails, e.history) ==> NothingFreed(fails, e.history))
  {
    var e := Drive(h, every, Start(h, state, rng, source));
    Replay.ReplayReproduces(h, every, state, rng, source, rng');
    hide Driver.Drive, FailsAlike, ShrinkFrom;
    assert DriveFixed(h, every, state, rng', e.history).Failure() == Some(e.ending.kind);
    ShrinkingIsSound(h, every, state, rng', e.history, limit, e.ending.kind);
    CandidateVerdict(h, every, state, rng', e.ending.kind, ShrinkFrom(h, every, state, rng', e.history, limit).current);
  }

  /** Run and shrink in one call, with rebuilds of the starting state: the report shows the same failure. */
  lemma ShrunkReportKeepsFailure(h: Harness, every: nat, start: State, rng: Prng, ops: seq<Op>, seed: nat, limit: nat)
    requires DriveFixed(h, every, start, rng, ops).ending.StepFailed?
    ensures var e := DriveFixed(h, every, start, rng, ops);
            var shown := ShrinkFrom(h, every, start, rng, e.history, limit).current;
            var report := Showing(Report(seed, CASE, DriveFixed(h, every, start, rng, shown)), shown);
            && report.failure.Some? && SameFailure(report.failure.value.kind, e.ending.kind)
            && CameAgain(e.ending.kind, Some(report.failure.value.kind))
            && report.failure.value.history == shown != [] && IsSubsequence(shown, ops)
  {
    var e := DriveFixed(h, every, start, rng, ops);
    ShownHistoryFailsAsReported(h, every, start, rng, Fixed(ops), rng, limit);
    Replay.FixedRun(h, every, Start(h, start, rng, Fixed(ops)));
    var shown := ShrinkFrom(h, every, start, rng, e.history, limit).current;
    hide Driver.Drive, ShrinkFrom;
    AcceptedExactly(DriveFixed(h, every, start, rng, shown).Failure(), e.ending.kind);
    hide CameAgain;
    PrefixIsSubsequence(e.history, ops);
    SubsequenceTransitive(shown, e.history, ops);
  }

  lemma PrefixIsSubsequence(a: seq<Op>, b: seq<Op>)
    requires a <= b
    ensures IsSubsequence(a, b)
  {
    WithoutIsSubsequence(b, |a|, |b|);
    assert Without(b, |a|, |b|) == a;
  }

  // ----- a harness whose failure is not minimized -----

  /** Five different states and four different operations. */
  datatype Walk = Walk(s0: State, sa: State, sab: State, sabc: State, lost: State, a: Op, b: Op, c: Op, d: Op) {
    ghost predicate Distinct() {
      && s0 != sa && s0 != sab && s0 != sabc && s0 != lost && sa != sab && sa != sabc && sa != lost
      && sab != sabc && sab != lost && sabc != lost
      && a != b && a != c && a != d && b != c && b != d && c != d
    }

    /** `a`, `b`, `c` in this order walk from `s0` to `sabc`; any other step loses the way. */
    ghost function Move(s: State, op: Op): State {
      if s == s0 && op == a then sa else if s == sa && op == b then sab else if s == sab && op == c then sabc else lost
    }
  }

  /** `d` uncovers a bug in every state but the lost one; there is nothing to check. */
  ghost function WalkHarness(w: Walk, bug: string): Harness {
    Harness(
      opKinds := [],
      weight := (s, k) => 0,
      generate := (rng: Prng, s, k) => (w.a, rng.stream),
      apply := (s, op) => if op == w.d && s != w.lost then (s, Err(BugError(bug))) else (w.Move(s, op), Ok(Accepted)),
      invariants := [],
      name := inv => "",
      check := (s, inv) => (s, Held),
      advance := (s, n) => (s, None))
  }

  /** The verdict on one list of the walk: where the walk leads, and whether `d` is then tried off the lost state. */
  lemma WalkVerdict(w: Walk, bug: string, every: nat, rng: Prng, ops: seq<Op>)
    requires w.Distinct()
    ensures FailsAlike(WalkHarness(w, bug), every, w.s0, rng, Bug(bug))(ops) <==> WalkFails(w, w.s0, ops)
    ensures DriveFixed(WalkHarness(w, bug), every, w.s0, rng, ops).Failure()
            == if WalkFails(w, w.s0, ops) then Some(Bug(bug)) else None
  {
    var h := WalkHarness(w, bug);
    Replay.FixedListFailsFirst(h, every, w.s0, rng, ops);
    WalkFailure(w, bug, every, w.s0, ops, 0);
    hide Driver.Drive, WalkHarness, Replay.FirstFailure, WalkFails;
  }

  ghost predicate WalkFails(w: Walk, s: State, ops: seq<Op>) {
    ops != [] && ((ops[0] == w.d && s != w.lost) || WalkFails(w, w.Move(s, ops[0]), ops[1..]))
  }

  lemma {:induction false} WalkFailure(w: Walk, bug: string, every: nat, s: State, ops: seq<Op>, n: nat)
    ensures var failure := Replay.FirstFailure(WalkHarness(w, bug), every, s, ops, n);
            if WalkFails(w, s, ops) then failure.Some? && failure.value.1 == Bug(bug) else failure.None?
  {
    if ops != [] { WalkFailure(w, bug, every, w.Move(s, ops[0]), ops[1..], n + 1); }
  }

  lemma WalkOn(w: Walk, s: State, op: Op, rest: seq<Op>)
    ensures WalkFails(w, s, [op] + rest) <==> (op == w.d && s != w.lost) || WalkFails(w, w.Move(s, op), rest)
  {
    assert ([op] + rest)[1..] == rest;
  }

  lemma {:induction false} LostForGood(w: Walk, ops: seq<Op>)
    requires w.Distinct()
    ensures !WalkFails(w, w.lost, ops)
  {
    if ops != [] { LostForGood(w, ops[1..]); }
  }

  /** Which parts of `a, b, c, d` fail: those where `d` comes before the way is lost. */
  lemma WalkFailsOn(w: Walk)
    requires w.Distinct()
    ensures JaggedVerdicts(w.a, w.b, w.c, w.d, (ops: seq<Op>) => WalkFails(w, w.s0, ops))
  {
    var a, b, c, d := w.a, w.b, w.c, w.d;
    assert [a, b, c, d] == [a] + [b, c, d] && [b, c, d] == [b] + [c, d] && [c, d] == [c] + [d] && [d] == [d] + [];
    assert [a, b, d] == [a] + [b, d] && [b, d] == [b] + [d] && [a, d] == [a] + [d] && [a, c, d] == [a] + [c, d];
    assert [a, b] == [a] + [b] && [b] == [b] + [] && [a] == [a] + [];
    assert forall s :: !WalkFails(w, s, []);
    forall ops ensures !WalkFails(w, w.lost, ops) { LostForGood(w, ops); }
    forall s, op, rest
      ensures WalkFails(w, s, [op] + rest) <==> (op == w.d && s != w.lost) || WalkFails(w, w.Move(s, op), rest)
    {
      WalkOn(w, s, op, rest);
    }
    hide WalkFails;
  }

  /**
   * Monotony is needed: on this harness shrinking `a, b, c, d` ends with replays to spare at
   * `a, d`, although `d` alone fails in the same way.
   */
  lemma ShrinkingStopsShort(w: Walk, bug: string, every: nat, rng: Prng, limit: nat)
    requires w.Distinct() && limit >= 9
    ensures var h := WalkHarness(w, bug);
            var fails := FailsAlike(h, every, w.s0, rng, Bug(bug));
            && DriveFixed(h, every, w.s0, rng, [w.a, w.b, w.c, w.d]).Failure() == Some(Bug(bug))
            && ShrinkFrom(h, every, w.s0, rng, [w.a, w.b, w.c, w.d], limit) == Search([w.a, w.d], limit - 9, false)
            && fails([w.d]) && !OneMinimal(fails, [w.a, w.d])
            && !NothingFreed(fails, [w.a, w.b, w.c, w.d]) && !Monotone(fails, [w.a, w.b, w.c, w.d])
  {
    var h := WalkHarness(w, bug);
    var fails := FailsAlike(h, every, w.s0, rng, Bug(bug));
    WalkFailsOn(w);
    hide WalkHarness, WalkFails, FailsAlike, Driver.Drive;
    forall ops ensures fails(ops) <==> WalkFails(w, w.s0, ops) { WalkVerdict(w, bug, every, rng, ops); }
    WalkVerdict(w, bug, every, rng, [w.a, w.b, w.c, w.d]);
    assert JaggedVerdicts(w.a, w.b, w.c, w.d, fails);
    JaggedSearchStopsShort(w.a, w.b, w.c, w.d, fails, limit);
  }

  lemma {:induction false} Log2Below(n: nat, bits: nat)
    requires 1 <= n < PowerOfTwo(bits)
    ensures Log2(n) < bits
  {
    if n > 1 { Log2Below(n / 2, bits - 1); }
  }

  /** The default budget is never exhausted on a history of up to 84 operations. */
  lemma DefaultLimitSuffices(n: nat)
    requires 1 <= n <= 84
    ensures ReplayBound(n) <= DEFAULT_SHRINK_LIMIT
  {
    assert PowerOfTwo(2) == 4;
    PowerOfSum(2, 2);
    PowerOfSum(4, 3);
    Log2Below(n, 7);
  }
}
