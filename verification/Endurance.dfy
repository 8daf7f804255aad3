/**
 * The endurance loop of `crates/harness/src/runner.rs` as a function on values, and the meaning of
 * its tolerance for consecutive infrastructure failures.
 *
 * The clock and the stop flag are read once per turn; `haltsAt(n)` says whether that reading ends
 * the loop after `n` operations.
 */
module Endurance {
  import opened Prelude
  import opened Outcome
  import opened Rng
  import opened Driver
  import Replay

  const NANOS_PER_MILLI: nat := 1_000_000
  const USIZE_MAX: nat := 0xFFFF_FFFF_FFFF_FFFF

  datatype EnduranceConfig = EnduranceConfig(
    haltsAt: nat -> bool,
    checkEvery: nat,
    advanceBlocks: Option<nat>,
    blockJitter: nat,
    maxDelayNanos: nat,
    maxOps: Option<nat>,
    maxConsecutiveInfra: nat
  ) {
    function Remaining(): nat {
      if maxOps.Some? then maxOps.value else USIZE_MAX
    }
  }

  function Below(rng: Prng, n: nat): (nat, Prng) {
    if n == 0 then (0, rng)
    else
      var (value, stream) := rng.genRange(rng.stream, n);
      (value, rng.(stream := stream))
  }

  /** How one step's result counts towards the tolerance. */
  datatype StepGrade = Good | InfraOnly | Fatal

  function GradeOf(failure: Option<FailureKind>): StepGrade {
    match failure
    case None => Good
    case Some(Infra(_)) => InfraOnly
    case Some(_) => Fatal
  }

  datatype EnduranceEnding =
    | Survived
    | StepFatal(op: Op, kind: FailureKind)
    | NothingDrawable
    | AdvanceFailed(detail: string)
    | FinalSweepFailed(kind: FailureKind)
  {
    function Failure(): Option<FailureKind> {
      match this
      case Survived => None
      case StepFatal(_, kind) => Some(kind)
      case NothingDrawable => Some(UNDRAWABLE)
      case AdvanceFailed(detail) => Some(Infra(detail))
      case FinalSweepFailed(kind) => Some(kind)
    }
  }

  /** `log` lists the grade of every step taken, in order. */
  datatype Lap = Lap(p: Progress, streak: nat, log: seq<StepGrade>)

  datatype EnduranceExit = EnduranceExit(lap: Lap, ending: EnduranceEnding) {
    function FailedOp(): Option<Op> {
      match ending
      case Survived => None
      case StepFatal(op, _) => Some(op)
      case _ => Last(lap.p.history)
    }
  }

  function Last(history: seq<Op>): Option<Op> {
    if history == [] then None else Some(history[|history| - 1])
  }

  ghost function EnduranceReport(seed: nat, exit: EnduranceExit): RunReport {
    var p := exit.lap.p;
    RunReport(seed, "endurance", p.steps, p.coverage.TotalSkipped(), p.coverage,
              match exit.ending.Failure()
              case None => Option.None
              case Some(kind) => Option.Some(Driver.Failure(p.steps, exit.FailedOp(), p.history, kind)))
  }

  /** The final sweep, run however the loop stopped. */
  function FinalSweep(h: Harness, lap: Lap): EnduranceExit {
    var swept := Sweep(h, lap.p.state, lap.p.coverage);
    EnduranceExit(lap.(p := lap.p.(state := swept.state, coverage := swept.coverage)),
                  if swept.failure.Some? then FinalSweepFailed(swept.failure.value) else Survived)
  }

  /** The pacing after a tolerated step: advance blocks, then draw the delay in whole milliseconds. */
  function Pace(h: Harness, cfg: EnduranceConfig, state: State, rng: Prng): (State, Prng, Option<string>) {
    var (state', rng', failed) :=
      if cfg.advanceBlocks.None? then (state, rng, None)
      else
        var (extra, jittered) := if cfg.blockJitter > 0 then Below(rng, cfg.blockJitter + 1) else (0, rng);
        var (advanced, failed) := h.advance(state, cfg.advanceBlocks.value + extra);
        (advanced, jittered, failed);
    if failed.Some? || cfg.maxDelayNanos == 0 then (state', rng', failed)
    else (state', Below(rng', cfg.maxDelayNanos / NANOS_PER_MILLI + 1).1, None)
  }

  datatype LapMove = NextLap(lap: Lap) | Finish(exit: EnduranceExit)

  function LapTurn(h: Harness, cfg: EnduranceConfig, lap: Lap): (m: LapMove)
    requires lap.p.source.Valid()
    ensures m.NextLap? ==> m.lap.p.source.Valid() && m.lap.p.source.Size() < lap.p.source.Size()
  {
    if cfg.haltsAt(lap.p.steps) then Finish(FinalSweep(h, lap))
    else
      match Next(h, lap.p.source, lap.p.state, lap.p.rng)
      case Exhausted => Finish(FinalSweep(h, lap))
      case Undrawable => Finish(EnduranceExit(lap, NothingDrawable))
      case Drawn(op, source, rng) =>
        var stepped := Step(h, lap.p.state, op, Due(cfg.checkEvery, lap.p.steps + 1), lap.p.coverage);
        var grade := GradeOf(stepped.failure);
        var next := Progress(stepped.state, rng, source, lap.p.steps + 1, stepped.coverage, lap.p.history + [op]);
        var log := lap.log + [grade];
        if grade.Good? then Paced(h, cfg, Lap(next, 0, log))
        else if grade.InfraOnly? && lap.streak < cfg.maxConsecutiveInfra then
          Paced(h, cfg, Lap(next, lap.streak + 1, log))
        else Finish(EnduranceExit(Lap(next, lap.streak, log), StepFatal(op, stepped.failure.value)))
  }

  function Paced(h: Harness, cfg: EnduranceConfig, lap: Lap): LapMove {
    var (state, rng, failed) := Pace(h, cfg, lap.p.state, lap.p.rng);
    var next := lap.(p := lap.p.(state := state, rng := rng));
    if failed.Some? then Finish(EnduranceExit(next, AdvanceFailed(failed.value))) else NextLap(next)
  }

  function Endure(h: Harness, cfg: EnduranceConfig, lap: Lap): EnduranceExit
    requires lap.p.source.Valid()
    decreases lap.p.source.Size()
  {
    match LapTurn(h, cfg, lap)
    case Finish(exit) => exit
    case NextLap(next) => Endure(h, cfg, next)
  }

  function FirstLap(h: Harness, state: State, rng: Prng, source: OpSource): Lap {
    Lap(Start(h, state, rng, source), 0, [])
  }

  lemma EndureStops(h: Harness, cfg: EnduranceConfig, lap: Lap)
    requires lap.p.source.Valid()
    ensures cfg.haltsAt(lap.p.steps) ==> Endure(h, cfg, lap) == FinalSweep(h, lap)
    ensures !cfg.haltsAt(lap.p.steps) ==>
              match Next(h, lap.p.source, lap.p.state, lap.p.rng)
              case Exhausted => Endure(h, cfg, lap) == FinalSweep(h, lap)
              case Undrawable => Endure(h, cfg, lap) == EnduranceExit(lap, NothingDrawable)
              case Drawn(_, _, _) => true
  {
    hide Next, FinalSweep;
  }

  /** One step of the loop: `after` is the state right after the step, before any pacing. */
  lemma EndureSteps(h: Harness, cfg: EnduranceConfig, lap: Lap, after: Lap, failure: Option<FailureKind>)
    requires lap.p.source.Valid() && !cfg.haltsAt(lap.p.steps) && Next(h, lap.p.source, lap.p.state, lap.p.rng).Drawn?
    requires var draw := Next(h, lap.p.source, lap.p.state, lap.p.rng);
             && Stepped(after.p.state, after.p.coverage, failure)
             == Step(h, lap.p.state, draw.op, Due(cfg.checkEvery, lap.p.steps + 1), lap.p.coverage)
             && after.p.rng == draw.rng && after.p.source == draw.source
             && after.p.steps == lap.p.steps + 1 && after.p.history == lap.p.history + [draw.op]
             && after.log == lap.log + [GradeOf(failure)]
             && after.streak == if failure.None? then 0
                                else if failure.value.Infra? && lap.streak < cfg.maxConsecutiveInfra then lap.streak + 1
                                else lap.streak
    ensures var draw := Next(h, lap.p.source, lap.p.state, lap.p.rng);
            if failure.Some? && !(failure.value.Infra? && lap.streak < cfg.maxConsecutiveInfra) then
              Endure(h, cfg, lap) == EnduranceExit(after, StepFatal(draw.op, failure.value))
            else
              && after.p.source.Valid()
              && var paced := Paced(h, cfg, after);
                 if paced.Finish? then Endure(h, cfg, lap) == paced.exit
                 else paced.lap.p.source == after.p.source && Endure(h, cfg, lap) == Endure(h, cfg, paced.lap)
  {
    hide Next, Step, FinalSweep, Pace;
  }

  // ----- tolerance as a sliding window -----

  /** The last `max + 1` steps were all infrastructure failures, or the last step was fatal. */
  predicate Trips(max: nat, log: seq<StepGrade>) {
    log != [] &&
    (log[|log| - 1].Fatal? || (|log| > max && forall i :: |log| - max - 1 <= i < |log| ==> log[i].InfraOnly?))
  }

  /** No earlier step had tripped. */
  predicate NeverTripped(max: nat, log: seq<StepGrade>) {
    forall k :: 0 <= k < |log| ==> !Trips(max, log[..k])
  }

  /** The streak is the number of infrastructure failures the log ends with. */
  predicate EndsWithStreak(log: seq<StepGrade>, streak: nat) {
    && streak <= |log|
    && (forall i :: |log| - streak <= i < |log| ==> log[i].InfraOnly?)
    && (streak < |log| ==> log[|log| - streak - 1].Good?)
  }

  ghost predicate LapInvariant(cfg: EnduranceConfig, lap: Lap) {
    && lap.p.source.Valid()
    && EndsWithStreak(lap.log, lap.streak) && lap.streak <= cfg.maxConsecutiveInfra
    && NeverTripped(cfg.maxConsecutiveInfra, lap.log) && !Trips(cfg.maxConsecutiveInfra, lap.log)
    && |lap.log| == lap.p.steps == |lap.p.history|
  }

  lemma StreakBoundsWindow(max: nat, log: seq<StepGrade>, streak: nat)
    requires EndsWithStreak(log, streak)
    ensures !Trips(max, log) <==> streak <= max
  {
    if streak > max {
      assert log[|log| - 1].InfraOnly?;
    } else if log != [] && |log| > max {
      if streak == 0 { assert log[|log| - 1].Good?; } else { assert log[|log| - 1].InfraOnly?; }
      assert !log[|log| - streak - 1].InfraOnly?;
    }
  }

  lemma LogStep(max: nat, log: seq<StepGrade>, grade: StepGrade)
    requires NeverTripped(max, log) && !Trips(max, log)
    ensures NeverTripped(max, log + [grade])
  {
    forall k | 0 <= k < |log + [grade]| ensures !Trips(max, (log + [grade])[..k]) {
      if k == |log| { assert (log + [grade])[..k] == log; } else { assert (log + [grade])[..k] == log[..k]; }
    }
  }

  lemma StreakStep(log: seq<StepGrade>, streak: nat, grade: StepGrade)
    requires EndsWithStreak(log, streak)
    ensures grade.Good? ==> EndsWithStreak(log + [grade], 0)
    ensures grade.InfraOnly? ==> EndsWithStreak(log + [grade], streak + 1)
  {
    var longer := log + [grade];
    if grade.InfraOnly? && streak < |log| {
      assert longer[|longer| - (streak + 1) - 1] == log[|log| - streak - 1];
    }
  }

  /** What the loop's exit says about the log of its steps. */
  ghost predicate Windowed(cfg: EnduranceConfig, exit: EnduranceExit) {
    var max, log := cfg.maxConsecutiveInfra, exit.lap.log;
    && |log| == exit.lap.p.steps == |exit.lap.p.history|
    && NeverTripped(max, log)
    && (exit.ending.StepFatal? <==> Trips(max, log))
  }

  lemma LapKeepsInvariant(h: Harness, cfg: EnduranceConfig, lap: Lap)
    requires LapInvariant(cfg, lap)
    ensures match LapTurn(h, cfg, lap)
            case NextLap(next) => LapInvariant(cfg, next)
            case Finish(exit) => Windowed(cfg, exit)
  {
    var max := cfg.maxConsecutiveInfra;
    if !cfg.haltsAt(lap.p.steps) {
      match Next(h, lap.p.source, lap.p.state, lap.p.rng) {
        case Drawn(op, source, rng) =>
          hide Step, Next, Trips, NeverTripped, EndsWithStreak;
          var stepped := Step(h, lap.p.state, op, Due(cfg.checkEvery, lap.p.steps + 1), lap.p.coverage);
          var grade := GradeOf(stepped.failure);
          var log := lap.log + [grade];
          LogStep(max, lap.log, grade);
          StreakStep(lap.log, lap.streak, grade);
          match grade {
            case Good => StreakBoundsWindow(max, log, 0);
            case InfraOnly => StreakBoundsWindow(max, log, lap.streak + 1);
            case Fatal => FatalTrips(max, log);
          }
        case _ =>
      }
    }
  }

  lemma FatalTrips(max: nat, log: seq<StepGrade>)
    requires log != [] && log[|log| - 1].Fatal?
    ensures Trips(max, log)
  {
  }

  lemma {:induction false} EndureKeepsWindow(h: Harness, cfg: EnduranceConfig, lap: Lap)
    requires LapInvariant(cfg, lap)
    ensures Windowed(cfg, Endure(h, cfg, lap))
    ensures Endure(h, cfg, lap).lap.p.steps <= lap.p.steps + lap.p.source.Size()
    decreases lap.p.source.Size()
  {
    hide Windowed, Paced, Step, Next;
    LapKeepsInvariant(h, cfg, lap);
    LapStepsBounded(h, cfg, lap);
    match LapTurn(h, cfg, lap)
    case Finish(_) =>
    case NextLap(next) => EndureKeepsWindow(h, cfg, next);
  }

  lemma LapStepsBounded(h: Harness, cfg: EnduranceConfig, lap: Lap)
    requires lap.p.source.Valid()
    ensures match LapTurn(h, cfg, lap)
            case NextLap(next) => next.p.steps + next.p.source.Size() <= lap.p.steps + lap.p.source.Size()
            case Finish(exit) => exit.lap.p.steps <= lap.p.steps + lap.p.source.Size()
  {
    hide Step;
  }

  /**
   * The loop fails on a step exactly when that step is the first one that is fatal or completes
   * `max + 1` infrastructure failures in a row, and it never takes more than `maxOps` steps.
   */
  lemma ToleranceIsSlidingWindow(h: Harness, cfg: EnduranceConfig, state: State, rng: Prng, mix: KindMix)
    requires ResolveMix(h, mix, cfg.Remaining()).Some?
    ensures var exit := Endure(h, cfg, FirstLap(h, state, rng, ResolveMix(h, mix, cfg.Remaining()).value));
            && Windowed(cfg, exit)
            && (cfg.maxOps.Some? ==> exit.lap.p.steps <= cfg.maxOps.value)
  {
    var source := ResolveMix(h, mix, cfg.Remaining()).value;
    ResolveMixIsValid(h, mix, cfg.Remaining());
    EndureKeepsWindow(h, cfg, FirstLap(h, state, rng, source));
  }

  // ----- skip reasons -----

  lemma LapKeepsSkipsExplained(h: Harness, cfg: EnduranceConfig, lap: Lap)
    requires lap.p.source.Valid() && lap.p.coverage.SkipsExplained()
    ensures match LapTurn(h, cfg, lap)
            case NextLap(next) => next.p.coverage.SkipsExplained()
            case Finish(exit) => exit.lap.p.coverage.SkipsExplained()
  {
    Replay.SweepKeepsSkipsExplained(h, h.invariants, lap.p.state, lap.p.coverage);
    match Next(h, lap.p.source, lap.p.state, lap.p.rng) {
      case Drawn(op, _, _) =>
        Replay.SweepKeepsSkipsExplained(h, h.invariants, h.apply(lap.p.state, op).0, lap.p.coverage);
      case _ =>
    }
  }

  lemma {:induction false} EndureKeepsSkipsExplained(h: Harness, cfg: EnduranceConfig, lap: Lap)
    requires lap.p.source.Valid() && lap.p.coverage.SkipsExplained()
    ensures Endure(h, cfg, lap).lap.p.coverage.SkipsExplained()
    decreases lap.p.source.Size()
  {
    LapKeepsSkipsExplained(h, cfg, lap);
    match LapTurn(h, cfg, lap)
    case Finish(_) =>
    case NextLap(next) => EndureKeepsSkipsExplained(h, cfg, next);
  }

  /** On every exit of the endurance loop, final sweep included, the skip count is the number of reasons stored. */
  lemma EnduranceSkipsAreReasons(h: Harness, cfg: EnduranceConfig, state: State, rng: Prng, source: OpSource, seed: nat)
    requires source.Valid()
    ensures var r := EnduranceReport(seed, Endure(h, cfg, FirstLap(h, state, rng, source)));
            r.skipped == r.coverage.TotalReasons()
  {
    EndureKeepsSkipsExplained(h, cfg, FirstLap(h, state, rng, source));
    SkipCountIsReasonCount(Endure(h, cfg, FirstLap(h, state, rng, source)).lap.p.coverage);
  }

  // ----- the last sweep -----

  /** The budget of operations, or the fixed list, is used up. */
  predicate UsedUp(source: OpSource) {
    match source
    case Generated(_, _, remaining) => remaining == 0
    case Fixed(ops) => ops == []
  }

  /** The loop leaves in the ordinary way here: the reading of clock and flag ends it, or the source is used up. */
  predicate LeavesLoop(cfg: EnduranceConfig, lap: Lap) {
    cfg.haltsAt(lap.p.steps) || UsedUp(lap.p.source)
  }

  /** The run survived with every invariant checked once more, or failed with the first that was violated. */
  ghost predicate SweptOnceMore(h: Harness, s: State, ending: EnduranceEnding) {
    if Replay.NoneViolated(h, h.invariants, s) then ending.Survived?
    else ending.FinalSweepFailed? && exists k: nat :: Replay.ViolatedFirst(h, h.invariants, s, k, ending.kind)
  }

  lemma OrdinaryExitSweeps(h: Harness, cfg: EnduranceConfig, lap: Lap)
    requires lap.p.source.Valid() && LeavesLoop(cfg, lap)
    ensures var e := Endure(h, cfg, lap);
            && SweptOnceMore(h, lap.p.state, e.ending)
            && e.lap.log == lap.log && e.lap.p.history == lap.p.history && e.lap.p.steps == lap.p.steps
  {
    Replay.SweepFindsTheFirst(h, h.invariants, lap.p.state, lap.p.coverage);
    hide Replay.NoneViolated, Replay.ViolatedFirst, SweepFrom;
    assert lap.p.source.Generated? && lap.p.source.remaining == 0 ==>
           Next(h, lap.p.source, lap.p.state, lap.p.rng).Exhausted?;
  }

  /** From `lap` the run gets to `last`, taking the steps and operations logged in between. */
  ghost predicate EndedAt(h: Harness, cfg: EnduranceConfig, last: Lap, e: EnduranceExit) {
    && last.p.source.Valid() && LeavesLoop(cfg, last) && SweptOnceMore(h, last.p.state, e.ending)
    && e.lap.log == last.log && e.lap.p.history == last.p.history && e.lap.p.steps == last.p.steps
    && e == Endure(h, cfg, last)
  }

  /**
   * A run that neither failed on a step, nor ran dry, nor failed to advance, left its loop in the
   * ordinary way and was swept once more: it survived exactly if that last sweep found nothing.
   */
  lemma {:induction false} EveryOrdinaryRunIsSwept(h: Harness, cfg: EnduranceConfig, lap: Lap)
    requires lap.p.source.Valid()
    ensures var e := Endure(h, cfg, lap);
            e.ending.Survived? || e.ending.FinalSweepFailed? ==> exists last :: EndedAt(h, cfg, last, e)
    decreases lap.p.source.Size()
  {
    var e := Endure(h, cfg, lap);
    if LeavesLoop(cfg, lap) {
      OrdinaryExitSweeps(h, cfg, lap);
      assert EndedAt(h, cfg, lap, e);
    } else {
      NotUsedUp(h, lap);
      hide Step, Pace, FinalSweep, EndedAt, Next;
      match LapTurn(h, cfg, lap)
      case Finish(_) =>
      case NextLap(next) => EveryOrdinaryRunIsSwept(h, cfg, next);
    }
  }

  lemma NotUsedUp(h: Harness, lap: Lap)
    requires lap.p.source.Valid() && !UsedUp(lap.p.source)
    ensures !Next(h, lap.p.source, lap.p.state, lap.p.rng).Exhausted?
  {
  }

  // ----- coverage accounting -----

  /** The steps that were due for a check and reached it, because their operation did not fail. */
  function ChecksDue(every: nat, log: seq<StepGrade>): nat {
    if log == [] then 0
    else
      var n := |log|;
      ChecksDue(every, log[..n - 1]) + if every > 0 && n % every == 0 && log[n - 1].Good? then 1 else 0
  }

  lemma ChecksDueNext(every: nat, log: seq<StepGrade>, grade: StepGrade, k: nat)
    ensures k * ChecksDue(every, log + [grade])
         == k * ChecksDue(every, log) + (if Due(every, |log| + 1) && grade.Good? then k else 0)
  {
    assert (log + [grade])[..|log|] == log;
    Distribute(ChecksDue(every, log), 1, k);
  }

  /** `total` checks of the name are on record, and `violations` of them were violated. */
  ghost predicate Tallied(c: Coverage, name: string, total: nat, violations: nat) {
    c.Entry(name).Total() == total && c.Entry(name).violated == violations
  }

  lemma SweepTally(h: Harness, s: State, c: Coverage, name: string, total: nat)
    requires Tallied(c, name, total, 0)
    ensures var r := Sweep(h, s, c);
            && (r.failure.None? ==> Tallied(r.coverage, name, total + Replay.Multiplicity(h, name), 0))
            && (r.failure.Some? ==> r.coverage.Entry(name).violated == Replay.ViolationsOf(r.failure.value, name))
  {
    Replay.SweepAccounting(h, h.invariants, s, c, name);
    hide SweepFrom, Coverage.Entry, Replay.CountNamed;
  }

  lemma TallyHasNoViolation(c: Coverage, name: string, total: nat)
    requires Tallied(c, name, total, 0)
    ensures c.Entry(name).violated == 0
  {
    hide Coverage.Entry;
  }

  lemma SweepFailsOnInvariants(h: Harness, s: State, c: Coverage)
    ensures Sweep(h, s, c).failure.Some? ==> Sweep(h, s, c).failure.value.Invariant?
  {
    Replay.SweepAccounting(h, h.invariants, s, c, "");
    hide SweepFrom, Coverage.Entry, Replay.CountNamed;
  }

  /** What one step adds to a tally that has no violation yet. */
  lemma StepTally(h: Harness, s: State, op: Op, check: bool, c: Coverage, name: string, total: nat)
    requires Tallied(c, name, total, 0)
    ensures var r := Step(h, s, op, check, c);
            && (r.failure.None? ==>
                  Tallied(r.coverage, name, total + (if check then Replay.Multiplicity(h, name) else 0), 0))
            && (r.failure.Some? && !r.failure.value.Invariant? ==> Tallied(r.coverage, name, total, 0))
            && (r.failure.Some? ==> r.coverage.Entry(name).violated == Replay.ViolationsOf(r.failure.value, name))
  {
    hide Sweep, Tallied, Replay.Multiplicity, Coverage.Entry;
    TallyHasNoViolation(c, name, total);
    SweepTally(h, h.apply(s, op).0, c, name, total);
    SweepFailsOnInvariants(h, h.apply(s, op).0, c);
  }

  ghost predicate LapAccounted(h: Harness, cfg: EnduranceConfig, lap: Lap, name: string) {
    && |lap.log| == lap.p.steps
    && Tallied(lap.p.coverage, name, Replay.Multiplicity(h, name) * ChecksDue(cfg.checkEvery, lap.log), 0)
  }

  /** The tallies of a finished run: all checks due and, if it came to that, one violation under the reported name. */
  ghost predicate ExitAccounted(h: Harness, cfg: EnduranceConfig, e: EnduranceExit, name: string) {
    var c, due := e.lap.p.coverage, ChecksDue(cfg.checkEvery, e.lap.log);
    match e.ending
    case Survived => Tallied(c, name, Replay.Multiplicity(h, name) * (due + 1), 0)
    case NothingDrawable => Tallied(c, name, Replay.Multiplicity(h, name) * due, 0)
    case AdvanceFailed(_) => Tallied(c, name, Replay.Multiplicity(h, name) * due, 0)
    case StepFatal(_, kind) => c.Entry(name).violated == Replay.ViolationsOf(kind, name)
    case FinalSweepFailed(kind) => c.Entry(name).violated == Replay.ViolationsOf(kind, name)
  }

  lemma FinalSweepAccounted(h: Harness, cfg: EnduranceConfig, lap: Lap, name: string)
    requires LapAccounted(h, cfg, lap, name)
    ensures ExitAccounted(h, cfg, FinalSweep(h, lap), name)
  {
    hide Sweep, ChecksDue, Tallied, Coverage.Entry, Replay.Multiplicity, Replay.ViolationsOf;
    var k, due := Replay.Multiplicity(h, name), ChecksDue(cfg.checkEvery, lap.log);
    Distribute(due, 1, k);
    SweepTally(h, lap.p.state, lap.p.coverage, name, k * due);
    assert k * (due + 1) == k * due + k;
  }

  /** The lap right after a step, before any pacing. */
  lemma AfterStepAccounted(h: Harness, cfg: EnduranceConfig, lap: Lap, op: Op, after: Lap, failure: Option<FailureKind>)
    requires var r := Step(h, lap.p.state, op, Due(cfg.checkEvery, lap.p.steps + 1), lap.p.coverage);
             failure == r.failure && after.p.coverage == r.coverage
    requires after.p.steps == lap.p.steps + 1 && after.log == lap.log + [GradeOf(failure)]
    ensures forall name :: LapAccounted(h, cfg, lap, name) ==>
              && (!GradeOf(failure).Fatal? ==> LapAccounted(h, cfg, after, name))
              && (failure.Some? ==> after.p.coverage.Entry(name).violated == Replay.ViolationsOf(failure.value, name))
  {
    hide Step, ChecksDue, Tallied, Replay.Multiplicity, Coverage.Entry;
    forall name | LapAccounted(h, cfg, lap, name)
      ensures !GradeOf(failure).Fatal? ==> LapAccounted(h, cfg, after, name)
      ensures failure.Some? ==> after.p.coverage.Entry(name).violated == Replay.ViolationsOf(failure.value, name)
    {
      var k := Replay.Multiplicity(h, name);
      StepTally(h, lap.p.state, op, Due(cfg.checkEvery, lap.p.steps + 1), lap.p.coverage, name,
                k * ChecksDue(cfg.checkEvery, lap.log));
      ChecksDueNext(cfg.checkEvery, lap.log, GradeOf(failure), k);
    }
  }

  /** Pacing leaves the records alone. */
  lemma PacingKeepsRecords(h: Harness, cfg: EnduranceConfig, lap: Lap)
    ensures match Paced(h, cfg, lap)
            case NextLap(next) => next.p.coverage == lap.p.coverage && next.p.steps == lap.p.steps
                && next.log == lap.log
            case Finish(e) =>
              && e.lap.p.coverage == lap.p.coverage && e.lap.p.steps == lap.p.steps && e.lap.log == lap.log
              && e.ending.AdvanceFailed?
  {
    hide Pace;
  }

  lemma LapTurnAccounted(h: Harness, cfg: EnduranceConfig, lap: Lap, name: string)
    requires lap.p.source.Valid() && LapAccounted(h, cfg, lap, name)
    ensures match LapTurn(h, cfg, lap)
            case NextLap(next) => LapAccounted(h, cfg, next, name)
            case Finish(e) => ExitAccounted(h, cfg, e, name)
  {
    FinalSweepAccounted(h, cfg, lap, name);
    hide Step, FinalSweep, Paced, Tallied, ChecksDue, Coverage.Entry, Replay.Multiplicity, Replay.ViolationsOf;
    if !cfg.haltsAt(lap.p.steps) {
      match Next(h, lap.p.source, lap.p.state, lap.p.rng)
      case Drawn(op, source, rng) =>
        hide Next;
        var stepped := Step(h, lap.p.state, op, Due(cfg.checkEvery, lap.p.steps + 1), lap.p.coverage);
        var grade := GradeOf(stepped.failure);
        var streak := if grade.Good? then 0
                      else if grade.InfraOnly? && lap.streak < cfg.maxConsecutiveInfra then lap.streak + 1
                      else lap.streak;
        var p := Progress(stepped.state, rng, source, lap.p.steps + 1, stepped.coverage, lap.p.history + [op]);
        var after := Lap(p, streak, lap.log + [grade]);
        AfterStepAccounted(h, cfg, lap, op, after, stepped.failure);
        PacingKeepsRecords(h, cfg, after);
        assert !grade.Fatal? ==> LapAccounted(h, cfg, after, name);
      case _ =>
    }
  }

  lemma NothingTallied(h: Harness, name: string)
    ensures Tallied(Seed(Names(h)), name, 0, 0)
  {
    hide Names, Coverage.Entry;
    SeedIsZero(Names(h), name);
  }

  lemma FirstLapAccounted(h: Harness, cfg: EnduranceConfig, state: State, rng: Prng, source: OpSource, name: string)
    ensures LapAccounted(h, cfg, FirstLap(h, state, rng, source), name)
  {
    hide Replay.Multiplicity, Names, Tallied, Seed;
    NothingTallied(h, name);
    assert ChecksDue(cfg.checkEvery, []) == 0;
    hide ChecksDue;
    assert Replay.Multiplicity(h, name) * 0 == 0;
  }

  lemma {:induction false} EndureAccounted(h: Harness, cfg: EnduranceConfig, lap: Lap, name: string)
    requires lap.p.source.Valid() && LapAccounted(h, cfg, lap, name)
    ensures ExitAccounted(h, cfg, Endure(h, cfg, lap), name)
    decreases lap.p.source.Size()
  {
    hide LapAccounted, ExitAccounted, Step, Pace, Next, FinalSweep;
    LapTurnAccounted(h, cfg, lap, name);
    match LapTurn(h, cfg, lap)
    case Finish(_) =>
    case NextLap(next) => EndureAccounted(h, cfg, next, name);
  }

  /**
   * Coverage accounting of an endurance run: a surviving one checked every name its multiplicity times
   * per due step whose operation did not fail, and once more at the end, and found no violation.
   */
  lemma EnduranceAccounting(h: Harness, cfg: EnduranceConfig, state: State, rng: Prng, source: OpSource, name: string)
    requires source.Valid()
    ensures ExitAccounted(h, cfg, Endure(h, cfg, FirstLap(h, state, rng, source)), name)
  {
    FirstLapAccounted(h, cfg, state, rng, source, name);
    hide Endure, ExitAccounted, LapAccounted;
    EndureAccounted(h, cfg, FirstLap(h, state, rng, source), name);
  }

  /** When no operation failed, the steps checked are those the cadence calls for. */
  lemma {:induction false} AllGoodChecksDue(every: nat, log: seq<StepGrade>)
    requires forall i :: 0 <= i < |log| ==> log[i].Good?
    ensures ChecksDue(every, log) == Replay.Sweeps(every, |log|)
  {
    if log != [] {
      AllGoodChecksDue(every, log[..|log| - 1]);
      Replay.SweepsStep(every, |log| - 1);
    } else if every > 0 {
      QuotientIs(0, every, 0, 0);
    }
  }

  // ----- pacing -----

  /** The draw for the jitter: none without blocks or without jitter. */
  function JitterDraw(cfg: EnduranceConfig, rng: Prng): (nat, Stream) {
    if cfg.advanceBlocks.None? || cfg.blockJitter == 0 then (0, rng.stream)
    else rng.genRange(rng.stream, cfg.blockJitter + 1)
  }

  /**
   * After a tolerated step the configured number of blocks is advanced, plus a draw up to the jitter,
   * and then the delay is drawn, in whole milliseconds; a failed advance ends the run before that.
   */
  lemma PacingAdvancesAndDelays(h: Harness, cfg: EnduranceConfig, lap: Lap)
    ensures var (extra, drawn) := JitterDraw(cfg, lap.p.rng);
            var (advanced, failed) :=
              if cfg.advanceBlocks.None? then (lap.p.state, None)
              else h.advance(lap.p.state, cfg.advanceBlocks.value + extra);
            var delayed :=
              if failed.Some? || cfg.maxDelayNanos == 0 then drawn
              else lap.p.rng.genRange(drawn, cfg.maxDelayNanos / 1_000_000 + 1).1;
            var after := lap.(p := lap.p.(state := advanced, rng := lap.p.rng.(stream := delayed)));
            0 <= extra <= cfg.blockJitter && Paced(h, cfg, lap) ==
            if failed.None? then NextLap(after) else Finish(EnduranceExit(after, AdvanceFailed(failed.value)))
  {
    var rng := lap.p.rng;
    var (extra, drawn) := JitterDraw(cfg, rng);
    var (advanced, failed) :=
      if cfg.advanceBlocks.None? then (lap.p.state, None)
      else h.advance(lap.p.state, cfg.advanceBlocks.value + extra);
    var delayed :=
      if failed.Some? || cfg.maxDelayNanos == 0 then drawn
      else rng.genRange(drawn, cfg.maxDelayNanos / 1_000_000 + 1).1;
    assert extra <= cfg.blockJitter;
    assert cfg.advanceBlocks.Some? && cfg.blockJitter > 0 ==>
           Below(rng, cfg.blockJitter + 1) == (extra, rng.(stream := drawn));
    assert rng.(stream := rng.stream) == rng;
    assert Pace(h, cfg, lap.p.state, rng) == (advanced, rng.(stream := delayed), failed);
  }

  // ----- what the report tells -----

  lemma {:induction false} FatalOpIsLast(h: Harness, cfg: EnduranceConfig, lap: Lap)
    requires lap.p.source.Valid()
    ensures var e := Endure(h, cfg, lap);
            e.ending.StepFatal? ==> Last(e.lap.p.history) == Some(e.ending.op)
    decreases lap.p.source.Size()
  {
    hide Step, Pace, Next;
    match LapTurn(h, cfg, lap)
    case Finish(_) =>
    case NextLap(next) => FatalOpIsLast(h, cfg, next);
  }

  lemma {:induction false} EndureKeepsNames(h: Harness, cfg: EnduranceConfig, lap: Lap)
    requires lap.p.source.Valid()
    ensures lap.p.coverage.tallies.Keys <= Endure(h, cfg, lap).lap.p.coverage.tallies.Keys
    decreases lap.p.source.Size()
  {
    Replay.SweepKeepsNames(h, h.invariants, lap.p.state, lap.p.coverage);
    match Next(h, lap.p.source, lap.p.state, lap.p.rng) {
      case Drawn(op, _, _) => Replay.SweepKeepsNames(h, h.invariants, h.apply(lap.p.state, op).0, lap.p.coverage);
      case _ =>
    }
    hide SweepFrom, Pace, Next;
    match LapTurn(h, cfg, lap)
    case Finish(_) =>
    case NextLap(next) => EndureKeepsNames(h, cfg, next);
  }

  /**
   * The report of an endurance run: one step per recorded operation, every invariant listed, and a
   * failure exactly when the run did not survive, at the last step, on the last operation.
   */
  lemma ReportTellsTheRun(h: Harness, cfg: EnduranceConfig, state: State, rng: Prng, mix: KindMix, seed: nat)
    requires ResolveMix(h, mix, cfg.Remaining()).Some?
    ensures var e := Endure(h, cfg, FirstLap(h, state, rng, ResolveMix(h, mix, cfg.Remaining()).value));
            var r, history := EnduranceReport(seed, e), e.lap.p.history;
            && r.seed == seed && r.mode == "endurance" && r.steps == |history|
            && (forall inv :: inv in h.invariants ==> h.name(inv) in r.coverage.tallies)
            && (r.failure.None? <==> e.ending.Survived?)
            && (r.failure.Some? ==>
                  && r.failure.value.step == r.steps && r.failure.value.history == history
                  && r.failure.value.op == (if history == [] then None else Some(history[|history| - 1]))
                  && match e.ending
                     case StepFatal(_, kind) => r.failure.value.kind == kind
                     case FinalSweepFailed(kind) => r.failure.value.kind == kind
                     case AdvanceFailed(detail) => r.failure.value.kind == Infra(detail)
                     case NothingDrawable => r.failure.value.kind.Infra?
                     case Survived => true)
  {
    var lap := FirstLap(h, state, rng, ResolveMix(h, mix, cfg.Remaining()).value);
    ToleranceIsSlidingWindow(h, cfg, state, rng, mix);
    ResolveMixIsValid(h, mix, cfg.Remaining());
    FatalOpIsLast(h, cfg, lap);
    EndureKeepsNames(h, cfg, lap);
    hide Endure;
    forall inv | inv in h.invariants ensures h.name(inv) in lap.p.coverage.tallies {
      var i :| 0 <= i < |h.invariants| && h.invariants[i] == inv;
      assert Names(h)[i] == h.name(inv);
    }
  }
}
