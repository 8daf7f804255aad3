/**
 * What re-driving the history of an endurance run shows. `crates/harness-cli/src/registry.rs` shrinks
 * a failed endurance run like any other, against the failure of its re-driven history; a re-drive
 * tolerates nothing and advances no blocks, so it can fail in another way than the run reported.
 */
module EnduranceReplay {
  import opened Prelude
  import opened Outcome
  import opened Rng
  import opened Driver
  import opened Endurance
  import opened Shrink
  import opened RunnerModel
  import Replay

  /** Advancing blocks, if the run does so, leaves what operations and checks see as it was. */
  ghost predicate AdvancesQuietly(h: Harness, cfg: EnduranceConfig) {
    cfg.advanceBlocks.None? || forall s: State, n: nat :: h.advance(s, n).0 == s
  }

  predicate GoodBetween(log: seq<StepGrade>, from: nat, upTo: int) {
    forall i :: from <= i < upTo && i < |log| ==> log[i].Good?
  }

  /** A lap only extends log and history, in step with each other, and a fatal ending is a further step. */
  lemma {:induction false} EndureGrows(h: Harness, cfg: EnduranceConfig, lap: Lap)
    requires lap.p.source.Valid()
    ensures var e := Endure(h, cfg, lap);
            && lap.log <= e.lap.log && lap.p.history <= e.lap.p.history
            && |e.lap.log| - |lap.log| == |e.lap.p.history| - |lap.p.history|
            && (e.ending.StepFatal? ==> |lap.log| < |e.lap.log|)
    decreases lap.p.source.Size()
  {
    hide Step, FinalSweep, Pace;
    FinalSweepKeepsLog(h, lap);
    match LapTurn(h, cfg, lap)
    case Finish(_) =>
    case NextLap(next) => EndureGrows(h, cfg, next);
  }

  lemma FinalSweepKeepsLog(h: Harness, lap: Lap)
    ensures var e := FinalSweep(h, lap);
            e.lap.log == lap.log && e.lap.p.history == lap.p.history
                && (e.ending.Survived? || e.ending.FinalSweepFailed?)
  {
  }

  /**
   * How the steps from number `from` on re-drive: they pass if every grade is good, they end in the
   * reported kind if the fatal step is the only one that is not, and else they stop at a tolerated
   * infrastructure failure.
   */
  predicate Redriven(e: EnduranceExit, from: nat, replay: Option<FailureKind>) {
    var log := e.lap.log;
    if GoodBetween(log, from, |log|) then replay.None? && !e.ending.StepFatal?
    else if e.ending.StepFatal? && GoodBetween(log, from, |log| - 1) then replay == Some(e.ending.kind)
    else replay.Some? && replay.value.Infra?
  }

  /** The rest of a run's history as a list to be driven from where a lap stands. */
  function Rest(lap: Lap, rng: Prng, history: seq<Op>): Progress
    requires |lap.p.history| <= |history|
  {
    Progress(lap.p.state, rng, Fixed(history[|lap.p.history|..]), lap.p.steps, lap.p.coverage, lap.p.history)
  }

  /** The lap after a drawn operation, before any pacing. */
  function AfterStep(h: Harness, cfg: EnduranceConfig, lap: Lap): (Lap, Option<FailureKind>)
    requires lap.p.source.Valid() && Next(h, lap.p.source, lap.p.state, lap.p.rng).Drawn?
  {
    var draw := Next(h, lap.p.source, lap.p.state, lap.p.rng);
    var stepped := Step(h, lap.p.state, draw.op, Due(cfg.checkEvery, lap.p.steps + 1), lap.p.coverage);
    var grade := GradeOf(stepped.failure);
    (Lap(Progress(stepped.state, draw.rng, draw.source, lap.p.steps + 1, stepped.coverage, lap.p.history + [draw.op]),
         if grade.Good? then 0
         else if grade.InfraOnly? && lap.streak < cfg.maxConsecutiveInfra then lap.streak + 1
         else lap.streak,
         lap.log + [grade]),
     stepped.failure)
  }

  /** A re-drive takes the same step, and stops at it unless it was good. */
  lemma RestTurn(h: Harness, cfg: EnduranceConfig, lap: Lap, rng: Prng, history: seq<Op>)
    requires lap.p.source.Valid() && Next(h, lap.p.source, lap.p.state, lap.p.rng).Drawn?
    requires AfterStep(h, cfg, lap).0.p.history <= history
    ensures var (after, failure) := AfterStep(h, cfg, lap);
            && after.p.source.Valid() && after.p.source.Size() < lap.p.source.Size()
            && var r := Drive(h, cfg.checkEvery, Rest(lap, rng, history));
               if failure.Some? then r.Failure() == failure
               else r == Drive(h, cfg.checkEvery, Rest(after, rng, history))
  {
    hide Step;
    var (after, failure) := AfterStep(h, cfg, lap);
    var q := Rest(lap, rng, history);
    assert history[|lap.p.history|] == after.p.history[|lap.p.history|];
    assert q.source.ops[0] == Next(h, lap.p.source, lap.p.state, lap.p.rng).op;
    assert q.source.ops[1..] == history[|after.p.history|..];
  }

  /** Quiet pacing changes nothing but the generator. */
  lemma QuietPacing(h: Harness, cfg: EnduranceConfig, lap: Lap)
    requires AdvancesQuietly(h, cfg)
    ensures match Paced(h, cfg, lap)
            case NextLap(next) => next == lap.(p := lap.p.(rng := next.p.rng))
            case Finish(exit) => exit.lap == lap.(p := lap.p.(rng := exit.lap.p.rng)) && exit.ending.AdvanceFailed?
  {
  }

  lemma {:induction false} RedriveFrom(h: Harness, cfg: EnduranceConfig, lap: Lap, rng: Prng)
    requires lap.p.source.Valid() && AdvancesQuietly(h, cfg)
    requires lap.p.history <= Endure(h, cfg, lap).lap.p.history
    ensures var e := Endure(h, cfg, lap);
            Redriven(e, |lap.log|, Drive(h, cfg.checkEvery, Rest(lap, rng, e.lap.p.history)).Failure())
    decreases lap.p.source.Size()
  {
    var e := Endure(h, cfg, lap);
    var draw := Next(h, lap.p.source, lap.p.state, lap.p.rng);
    FinalSweepKeepsLog(h, lap);
    if cfg.haltsAt(lap.p.steps) || !draw.Drawn? {
      assert e.lap.log == lap.log && Rest(lap, rng, e.lap.p.history).source.ops == [];
    } else {
      var (after, failure) := AfterStep(h, cfg, lap);
      QuietPacing(h, cfg, after);
      hide Step, Next, Pace, Paced, FinalSweep;
      var turn := LapTurn(h, cfg, lap);
      assert turn == if failure.Some? && !(failure.value.Infra? && lap.streak < cfg.maxConsecutiveInfra)
                     then Finish(EnduranceExit(after, StepFatal(draw.op, failure.value)))
                     else Paced(h, cfg, after);
      if turn.NextLap? { EndureGrows(h, cfg, turn.lap); }
      assert after.p.history <= e.lap.p.history && after.log <= e.lap.log;
      assert e.lap.log[|lap.log|] == GradeOf(failure);
      RestTurn(h, cfg, lap, rng, e.lap.p.history);
      hide LapTurn, Drive, AfterStep;
      if failure.None? && turn.NextLap? {
        assert Rest(turn.lap, rng, e.lap.p.history) == Rest(after, rng, e.lap.p.history);
        RedriveFrom(h, cfg, turn.lap, rng);
        GoodFirst(e, |lap.log|, Drive(h, cfg.checkEvery, Rest(after, rng, e.lap.p.history)).Failure());
      } else if failure.None? {
        assert Rest(after, rng, e.lap.p.history).source.ops == [];
        NothingToDrive(h, cfg.checkEvery, Rest(after, rng, e.lap.p.history));
      }
    }
  }

  lemma NothingToDrive(h: Harness, every: nat, p: Progress)
    requires p.source == Fixed([])
    ensures Drive(h, every, p).Failure().None?
  {
  }

  /** A good step in front does not change how the rest re-drives. */
  lemma GoodFirst(e: EnduranceExit, from: nat, replay: Option<FailureKind>)
    requires from < |e.lap.log| && e.lap.log[from].Good? && Redriven(e, from + 1, replay)
    ensures Redriven(e, from, replay)
  {
  }

  /** The whole history of an endurance run, re-driven from its start at its cadence. */
  lemma EnduranceHistoryRedriven(h: Harness, cfg: EnduranceConfig, state: State, rng: Prng, source: OpSource,
                                 rng': Prng)
    requires source.Valid() && AdvancesQuietly(h, cfg)
    ensures var e := Endure(h, cfg, FirstLap(h, state, rng, source));
            Redriven(e, 0, DriveFixed(h, cfg.checkEvery, state, rng', e.lap.p.history).Failure())
  {
    var lap := FirstLap(h, state, rng, source);
    EndureGrows(h, cfg, lap);
    RedriveFrom(h, cfg, lap, rng');
    var history := Endure(h, cfg, lap).lap.p.history;
    assert history[0..] == history;
    hide Endure, Drive;
  }

  // ----- when the report reproduces -----

  /**
   * A caller can read this off the run: the fatal step is the only one that was not good or is an
   * infrastructure failure itself, or an infrastructure failure ended the run between steps after
   * another had been tolerated.
   */
  predicate ReportReproduces(e: EnduranceExit) {
    match e.ending
    case Survived => false
    case StepFatal(_, kind) => kind.Infra? || GoodBetween(e.lap.log, 0, |e.lap.log| - 1)
    case FinalSweepFailed(_) => false
    case _ => !GoodBetween(e.lap.log, 0, |e.lap.log|)
  }

  /** The final sweep can only report an invariant. */
  lemma {:induction false} FinalFailureIsInvariant(h: Harness, cfg: EnduranceConfig, lap: Lap)
    requires lap.p.source.Valid()
    ensures var e := Endure(h, cfg, lap); e.ending.FinalSweepFailed? ==> e.ending.kind.Invariant?
    decreases lap.p.source.Size()
  {
    Replay.SweepAccounting(h, h.invariants, lap.p.state, lap.p.coverage, "");
    hide Step, Pace, SweepFrom;
    match LapTurn(h, cfg, lap)
    case Finish(_) =>
    case NextLap(next) => FinalFailureIsInvariant(h, cfg, next);
  }

  /**
   * The exact condition, for every failed endurance run that advances quietly: its history re-drives
   * to the reported failure if and only if `ReportReproduces`.
   */
  lemma EnduranceReportReproducesIff(h: Harness, cfg: EnduranceConfig, state: State, rng: Prng, source: OpSource,
                                     rng': Prng)
    requires source.Valid() && AdvancesQuietly(h, cfg)
    requires Endure(h, cfg, FirstLap(h, state, rng, source)).ending.Failure().Some?
    ensures var e := Endure(h, cfg, FirstLap(h, state, rng, source));
            var replay := DriveFixed(h, cfg.checkEvery, state, rng', e.lap.p.history).Failure();
            (replay.Some? && SameFailure(replay.value, e.ending.Failure().value)) <==> ReportReproduces(e)
  {
    EnduranceHistoryRedriven(h, cfg, state, rng, source, rng');
    FinalFailureIsInvariant(h, cfg, FirstLap(h, state, rng, source));
    hide Endure, Drive;
  }

  /** The same for what is shown: the shrunk history fails as reported if and only if `ReportReproduces`. */
  lemma EnduranceShownFailsAsReportedIff(h: Harness, cfg: EnduranceConfig, state: State, rng: Prng, source: OpSource,
                                         rng': Prng, limit: nat)
    requires source.Valid() && AdvancesQuietly(h, cfg)
    requires Endure(h, cfg, FirstLap(h, state, rng, source)).ending.Failure().Some?
    ensures var e := Endure(h, cfg, FirstLap(h, state, rng, source));
            var shown := ShrinkFrom(h, cfg.checkEvery, state, rng', e.lap.p.history, limit).current;
            && (FailsAlike(h, cfg.checkEvery, state, rng', e.ending.Failure().value)(shown) <==> ReportReproduces(e))
            && (!e.ending.StepFatal? && GoodBetween(e.lap.log, 0, |e.lap.log|) ==> shown == e.lap.p.history)
  {
    var e := Endure(h, cfg, FirstLap(h, state, rng, source));
    EnduranceReportReproducesIff(h, cfg, state, rng, source, rng');
    EnduranceHistoryRedriven(h, cfg, state, rng, source, rng');
    ShownFailsAlikeIff(h, cfg.checkEvery, state, rng', e.lap.p.history, limit, e.ending.Failure().value);
    hide Endure, Driver.Drive, FailsAlike;
  }

  // ----- runs that are not reproduced -----

  lemma OneKindIsDrawn(h: Harness, k: Kind, n: nat, s: State, rng: Prng)
    requires n > 0 && h.weight(s, k) == 1
    ensures var draw := Next(h, Generated([k], [1], n), s, rng);
            draw.Drawn? && draw.source == Generated([k], [1], n - 1) && exists g :: draw.op == h.generate(g, s, k).0
  {
    var weights := Weights(h, s, [k], [1]);
    assert weights == [1];
    SumZeroIffAllZero(weights);
    DrawnBucketHasWeight(rng, weights);
    var drawn := WeightedDraw(rng, weights);
    assert Next(h, Generated([k], [1], n), s, rng).op == h.generate(drawn.1, s, [k][drawn.0]).0;
  }

  /** Two states and two operations; `a` is drawn in the first state, `b` in the second. */
  datatype Pair = Pair(first: State, second: State, a: Op, b: Op)

  /** In the first state an operation meets an infrastructure failure, in the second it uncovers a bug. */
  ghost function FlakyHarness(w: Pair, outage: string, bug: string): Harness {
    Harness(
      opKinds := [],
      weight := (s, k) => 1,
      generate := (rng: Prng, s, k) => (if s == w.first then w.a else w.b, rng.stream),
      apply := (s, op) => (w.second, Err(if s == w.first then InfraError(outage) else BugError(bug))),
      invariants := [],
      name := inv => "",
      check := (s, inv) => (s, Held),
      advance := (s, n) => (s, None))
  }

  /** In the second state, which only advancing blocks leads to, an operation uncovers a bug. */
  ghost function MaturingHarness(w: Pair, bug: string): Harness {
    Harness(
      opKinds := [],
      weight := (s, k) => 1,
      generate := (rng: Prng, s, k) => (if s == w.first then w.a else w.b, rng.stream),
      apply := (s, op) => (s, if s == w.first then Ok(Accepted) else Err(BugError(bug))),
      invariants := [],
      name := inv => "",
      check := (s, inv) => (s, Held),
      advance := (s, n) => (w.second, None))
  }

  /** Two steps at most, one tolerated failure at most, and no delays. */
  function TwoSteps(every: nat, advance: Option<nat>): EnduranceConfig {
    EnduranceConfig(n => false, every, advance, 0, 0, Some(2), 1)
  }

  lemma FlakyRedrive(w: Pair, outage: string, bug: string, every: nat, rng: Prng)
    ensures DriveFixed(FlakyHarness(w, outage, bug), every, w.first, rng, [w.a, w.b]).Failure() == Some(Infra(outage))
  {
    var h := FlakyHarness(w, outage, bug);
    Replay.FixedListFailsFirst(h, every, w.first, rng, [w.a, w.b]);
    hide Driver.Drive;
  }

  lemma MaturingRedrive(w: Pair, bug: string, every: nat, rng: Prng)
    requires w.first != w.second
    ensures var h := MaturingHarness(w, bug);
            DriveFixed(h, every, w.first, rng, [w.a, w.b]).Failure().None? && h.advance(w.first, 1).0 != w.first
  {
    var h := MaturingHarness(w, bug);
    Replay.FixedListFailsFirst(h, every, w.first, rng, [w.a, w.b]);
    hide Driver.Drive;
    assert [w.a, w.b][1..] == [w.b];
    assert Replay.FirstFailure(h, every, w.first, [w.b], 1).None?;
  }

  lemma FlakyRun(w: Pair, k: Kind, outage: string, bug: string, every: nat, rng: Prng)
    requires w.first != w.second
    ensures var h, cfg := FlakyHarness(w, outage, bug), TwoSteps(every, None);
            var e := Endure(h, cfg, FirstLap(h, w.first, rng, Generated([k], [1], 2)));
            && e.ending == StepFatal(w.b, Bug(bug)) && e.lap.log == [InfraOnly, Fatal] && e.lap.p.history == [w.a, w.b]
            && !ReportReproduces(e)
  {
    var h, cfg := FlakyHarness(w, outage, bug), TwoSteps(every, None);
    var start := FirstLap(h, w.first, rng, Generated([k], [1], 2));
    OneKindIsDrawn(h, k, 2, w.first, rng);
    var next := LapTurn(h, cfg, start).lap;
    OneKindIsDrawn(h, k, 1, w.second, next.p.rng);
    var exit := LapTurn(h, cfg, next).exit;
    assert exit.lap.log[0].InfraOnly? && |exit.lap.log| == 2;
    assert Endure(h, cfg, next) == exit;
    assert Endure(h, cfg, start) == exit;
  }

  /**
   * A tolerated outage before the bug: the report says bug, the history re-drives to the outage,
   * and so does what is shown.
   */
  lemma ToleratedOutageHidesTheBug(w: Pair, k: Kind, outage: string, bug: string, every: nat, rng: Prng, rng': Prng,
                                   limit: nat)
    requires w.first != w.second
    ensures var h, cfg := FlakyHarness(w, outage, bug), TwoSteps(every, None);
            var e := Endure(h, cfg, FirstLap(h, w.first, rng, Generated([k], [1], 2)));
            var shown := ShrinkFrom(h, every, w.first, rng', e.lap.p.history, limit).current;
            && AdvancesQuietly(h, cfg)
            && e.ending == StepFatal(w.b, Bug(bug)) && e.lap.p.history == [w.a, w.b]
            && DriveFixed(h, every, w.first, rng', [w.a, w.b]).Failure() == Some(Infra(outage))
            && !ReportReproduces(e) && !FailsAlike(h, every, w.first, rng', Bug(bug))(shown)
  {
    var h, cfg := FlakyHarness(w, outage, bug), TwoSteps(every, None);
    FlakyRun(w, k, outage, bug, every, rng);
    FlakyRedrive(w, outage, bug, every, rng');
    hide ReportReproduces, FlakyHarness, Endure, Driver.Drive, ShrinkFrom, FailsAlike;
    EnduranceShownFailsAsReportedIff(h, cfg, w.first, rng, Generated([k], [1], 2), rng', limit);
  }

  lemma MaturingRun(w: Pair, k: Kind, bug: string, every: nat, rng: Prng)
    requires w.first != w.second
    ensures var h, cfg := MaturingHarness(w, bug), TwoSteps(every, Some(1));
            var e := Endure(h, cfg, FirstLap(h, w.first, rng, Generated([k], [1], 2)));
            && e.ending == StepFatal(w.b, Bug(bug)) && e.lap.log == [Good, Fatal] && e.lap.p.history == [w.a, w.b]
            && ReportReproduces(e)
  {
    var h, cfg := MaturingHarness(w, bug), TwoSteps(every, Some(1));
    var start := FirstLap(h, w.first, rng, Generated([k], [1], 2));
    OneKindIsDrawn(h, k, 2, w.first, rng);
    var next := LapTurn(h, cfg, start).lap;
    OneKindIsDrawn(h, k, 1, w.second, next.p.rng);
    var exit := LapTurn(h, cfg, next).exit;
    assert exit.lap.log[0].Good? && |exit.lap.log| == 2;
    assert Endure(h, cfg, next) == exit;
    assert Endure(h, cfg, start) == exit;
  }

  /** Quiet advancing is needed: here every grade before the bug is good, and yet the history re-drives to a pass. */
  lemma AdvancedBlocksAreNotRedriven(w: Pair, k: Kind, bug: string, every: nat, rng: Prng, rng': Prng, limit: nat)
    requires w.first != w.second
    ensures var h, cfg := MaturingHarness(w, bug), TwoSteps(every, Some(1));
            var e := Endure(h, cfg, FirstLap(h, w.first, rng, Generated([k], [1], 2)));
            var shown := ShrinkFrom(h, every, w.first, rng', e.lap.p.history, limit).current;
            && e.ending == StepFatal(w.b, Bug(bug)) && e.lap.p.history == [w.a, w.b]
            && ReportReproduces(e) && !AdvancesQuietly(h, cfg)
            && shown == [w.a, w.b] && !FailsAlike(h, every, w.first, rng', Bug(bug))(shown)
  {
    var h := MaturingHarness(w, bug);
    MaturingRun(w, k, bug, every, rng);
    MaturingRedrive(w, bug, every, rng');
    hide ReportReproduces, MaturingHarness, Endure, Driver.Drive, ShrinkFrom, FailsAlike;
    ShownFailsAlikeIff(h, every, w.first, rng', [w.a, w.b], limit, Bug(bug));
  }
}
