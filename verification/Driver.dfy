/**
 * The step machines behind `crates/harness/src/runner.rs`, as functions on values: the sequence
 * driver shared by generated and fixed runs, and the scenario driver. `Runner.dfy` proves the
 * in-place methods against these.
 *
 * A harness is a record of deterministic functions. `State` is the live context together with the
 * model world, the two things `apply` and `check` may change.
 */
module Driver {
  import opened Prelude
  import opened Outcome
  import opened Rng

  type State(!new)
  type Op(==, !new)
  type Kind(==, !new)
  type Inv(!new)

  const U32_MAX: nat := 0xFFFF_FFFF
  type u32 = n: nat | n <= 0xFFFF_FFFF

  datatype Harness = Harness(
    opKinds: seq<Kind>,
    weight: (State, Kind) -> u32,
    generate: (Prng, State, Kind) -> (Op, Stream),
    apply: (State, Op) -> (State, Result<Verdict, HarnessError>),
    invariants: seq<Inv>,
    name: Inv -> string,
    check: (State, Inv) -> (State, CheckOutcome),
    advance: (State, nat) -> (State, Option<string>)
  )

  function Names(h: Harness): seq<string> {
    seq(|h.invariants|, i requires 0 <= i < |h.invariants| => h.name(h.invariants[i]))
  }

  // ----- where operations come from -----

  datatype KindMix = AllKinds | Restricted(kinds: seq<Kind>) | Weighted(pairs: seq<(Kind, u32)>)

  datatype OpSource =
    | Generated(kinds: seq<Kind>, statics: seq<u32>, remaining: nat)
    | Fixed(ops: seq<Op>)
  {
    ghost predicate Valid() {
      Generated? ==> |kinds| == |statics| && kinds != []
    }

    function Size(): nat {
      if Generated? then remaining else |ops|
    }
  }

  function Ones(n: nat): (ones: seq<u32>)
    ensures |ones| == n && forall i :: 0 <= i < n ==> ones[i] == 1
  {
    seq(n, _ => 1)
  }

  function KindsOf(h: Harness, mix: KindMix): seq<Kind> {
    match mix
    case AllKinds => h.opKinds
    case Restricted(kinds) => kinds
    case Weighted(pairs) => seq(|pairs|, i requires 0 <= i < |pairs| => pairs[i].0)
  }

  function StaticsOf(h: Harness, mix: KindMix): seq<u32> {
    match mix
    case AllKinds => Ones(|h.opKinds|)
    case Restricted(kinds) => Ones(|kinds|)
    case Weighted(pairs) => seq(|pairs|, i requires 0 <= i < |pairs| => pairs[i].1)
  }

  function ResolveMix(h: Harness, mix: KindMix, remaining: nat): Option<OpSource> {
    var kinds, statics := KindsOf(h, mix), StaticsOf(h, mix);
    if kinds == [] || forall i :: 0 <= i < |statics| ==> statics[i] == 0 then None
    else Some(Generated(kinds, statics, remaining))
  }

  lemma ResolveMixIsValid(h: Harness, mix: KindMix, remaining: nat)
    ensures var r := ResolveMix(h, mix, remaining);
            r.Some? ==> r.value.Valid() && r.value.Size() == remaining
  {
  }

  function SaturatingMul(a: u32, b: u32): u32 {
    if a * b <= U32_MAX then a * b else U32_MAX
  }

  function Weights(h: Harness, state: State, kinds: seq<Kind>, statics: seq<u32>): (w: seq<nat>)
    requires |kinds| == |statics|
  {
    seq<nat>(|kinds|, i requires 0 <= i < |kinds| => SaturatingMul(statics[i], h.weight(state, kinds[i])))
  }

  datatype Draw = Drawn(op: Op, source: OpSource, rng: Prng) | Exhausted | Undrawable

  function Next(h: Harness, source: OpSource, state: State, rng: Prng): (d: Draw)
    requires source.Valid()
    ensures d.Drawn? ==> d.source.Valid() && d.source.Size() + 1 == source.Size()
  {
    match source
    case Fixed(ops) =>
      if ops == [] then Exhausted else Drawn(ops[0], Fixed(ops[1..]), rng)
    case Generated(kinds, statics, remaining) =>
      if remaining == 0 then Exhausted
      else
        var weights := Weights(h, state, kinds, statics);
        if forall i :: 0 <= i < |weights| ==> weights[i] == 0 then Undrawable
        else
          SumZeroIffAllZero(weights);
          DrawnBucketHasWeight(rng, weights);
          var (idx, rng1) := WeightedDraw(rng, weights);
          var (op, stream) := h.generate(rng1, state, kinds[idx]);
          Drawn(op, Generated(kinds, statics, remaining - 1), rng1.(stream := stream))
  }

  /** A kind is only ever drawn while both its static and its dynamic weight are non-zero. */
  lemma DrawnKindHasWeight(h: Harness, source: OpSource, state: State, rng: Prng)
    requires source.Valid() && source.Generated? && Next(h, source, state, rng).Drawn?
    ensures exists i | 0 <= i < |source.kinds| ::
              && source.statics[i] > 0 && h.weight(state, source.kinds[i]) > 0
              && var rng1 := WeightedDraw(rng, Weights(h, state, source.kinds, source.statics)).1;
                 Next(h, source, state, rng).op == h.generate(rng1, state, source.kinds[i]).0
  {
    var weights := Weights(h, state, source.kinds, source.statics);
    SumZeroIffAllZero(weights);
    DrawnBucketHasWeight(rng, weights);
    var i := WeightedDraw(rng, weights).0;
    assert weights[i] == SaturatingMul(source.statics[i], h.weight(state, source.kinds[i]));
  }

  // ----- one step -----

  datatype Stepped = Stepped(state: State, coverage: Coverage, failure: Option<FailureKind>)

  function SweepFrom(h: Harness, invs: seq<Inv>, state: State, coverage: Coverage): Stepped {
    if invs == [] then Stepped(state, coverage, None)
    else
      var (s, outcome) := h.check(state, invs[0]);
      var name := h.name(invs[0]);
      var c := coverage.Record(name, outcome);
      if outcome.Violated? then Stepped(s, c, Some(Invariant(name, outcome.detail)))
      else SweepFrom(h, invs[1..], s, c)
  }

  function Sweep(h: Harness, state: State, coverage: Coverage): Stepped {
    SweepFrom(h, h.invariants, state, coverage)
  }

  function Step(h: Harness, state: State, op: Op, check: bool, coverage: Coverage): Stepped {
    var (s, applied) := h.apply(state, op);
    match applied
    case Err(e) => Stepped(s, coverage, Some(KindOf(e)))
    case Ok(_) => if check then Sweep(h, s, coverage) else Stepped(s, coverage, None)
  }

  /** Whether the cadence `every` runs the invariants after step number `step`. */
  predicate Due(every: nat, step: nat) {
    every > 0 && step % every == 0
  }

  // ----- the sequence driver -----

  /** Everything a driver carries from one operation to the next. */
  datatype Progress = Progress(state: State, rng: Prng, source: OpSource, steps: nat,
                               coverage: Coverage, history: seq<Op>)

  datatype Ending =
    | Passed
    | StepFailed(op: Op, kind: FailureKind)
    | SourceDry

  const UNDRAWABLE: FailureKind :=
    Infra("no operation kind is currently drawable: every effective weight "
        + "(static * Harness::weight) is 0 for the current world")

  /** Where a run ended; its report is read off this. */
  datatype Exit = Exit(state: State, rng: Prng, steps: nat, coverage: Coverage, history: seq<Op>, ending: Ending) {
    function Failure(): Option<FailureKind> {
      match ending
      case Passed => None
      case StepFailed(_, kind) => Some(kind)
      case SourceDry => Some(UNDRAWABLE)
    }

    function FailedOp(): Option<Op> {
      match ending
      case Passed => None
      case StepFailed(op, _) => Some(op)
      case SourceDry => if history == [] then None else Some(history[|history| - 1])
    }
  }

  function Leave(p: Progress, ending: Ending): Exit {
    Exit(p.state, p.rng, p.steps, p.coverage, p.history, ending)
  }

  datatype Move = Continue(next: Progress) | Done(exit: Exit)

  /** One turn of the driver's loop. */
  function Turn(h: Harness, every: nat, p: Progress): (m: Move)
    requires p.source.Valid()
    ensures m.Continue? ==> m.next.source.Valid() && m.next.source.Size() < p.source.Size()
  {
    match Next(h, p.source, p.state, p.rng)
    case Exhausted => Done(Leave(p, Passed))
    case Undrawable => Done(Leave(p, SourceDry))
    case Drawn(op, source, rng) =>
      var stepped := Step(h, p.state, op, Due(every, p.steps + 1), p.coverage);
      var q := Progress(stepped.state, rng, source, p.steps + 1, stepped.coverage, p.history + [op]);
      if stepped.failure.Some? then Done(Leave(q, StepFailed(op, stepped.failure.value))) else Continue(q)
  }

  function Drive(h: Harness, every: nat, p: Progress): Exit
    requires p.source.Valid()
    decreases p.source.Size()
  {
    match Turn(h, every, p)
    case Done(exit) => exit
    case Continue(q) => Drive(h, every, q)
  }

  function Start(h: Harness, state: State, rng: Prng, source: OpSource): Progress {
    Progress(state, rng, source, 0, Seed(Names(h)), [])
  }

  /** A fixed list driven from `state`: what replay, shrink candidates and cases all run. */
  function DriveFixed(h: Harness, every: nat, state: State, rng: Prng, ops: seq<Op>): Exit {
    Drive(h, every, Start(h, state, rng, Fixed(ops)))
  }

  // ----- reports -----

  datatype Failure = Failure(step: nat, op: Option<Op>, history: seq<Op>, kind: FailureKind)

  datatype RunReport = RunReport(seed: nat, mode: string, steps: nat, skipped: nat, coverage: Coverage,
                                 failure: Option<Failure>)

  ghost function Report(seed: nat, mode: string, exit: Exit): RunReport {
    RunReport(seed, mode, exit.steps, exit.coverage.TotalSkipped(), exit.coverage,
              if exit.ending.Passed? then None
              else Some(Failure(exit.steps, exit.FailedOp(), exit.history, exit.Failure().value)))
  }

  // ----- the scenario driver -----

  datatype Expectation = ExpectAccepted | ExpectRejected | ExpectAny

  datatype ScenarioStep = ScenarioStep(op: Op, wanted: Expectation, check: bool)

  predicate Mismatch(wanted: Expectation, verdict: Verdict) {
    (wanted.ExpectAccepted? && verdict.Rejected?) || (wanted.ExpectRejected? && verdict.Accepted?)
  }

  function MismatchText(wanted: Expectation, number: nat): string {
    "step " + Decimal(number) + (if wanted.ExpectAccepted? then ": expected acceptance, operation was rejected"
                                 else ": expected rejection, operation was accepted")
  }

  function ScenarioStepped(h: Harness, state: State, step: ScenarioStep, number: nat,
                           every: nat, coverage: Coverage): Stepped {
    var (s, applied) := h.apply(state, step.op);
    match applied
    case Err(e) => Stepped(s, coverage, Some(KindOf(e)))
    case Ok(verdict) =>
      if Mismatch(step.wanted, verdict) then Stepped(s, coverage, Some(Bug(MismatchText(step.wanted, number))))
      else if step.check && Due(every, number) then Sweep(h, s, coverage)
      else Stepped(s, coverage, None)
  }

  function DriveSteps(h: Harness, every: nat, steps: seq<ScenarioStep>,
                      state: State, rng: Prng, count: nat, coverage: Coverage, history: seq<Op>): Exit
    decreases |steps|
  {
    if steps == [] then Exit(state, rng, count, coverage, history, Passed)
    else
      var done := ScenarioStepped(h, state, steps[0], count + 1, every, coverage);
      var past := history + [steps[0].op];
      if done.failure.Some? then
        Exit(done.state, rng, count + 1, done.coverage, past, StepFailed(steps[0].op, done.failure.value))
      else
        DriveSteps(h, every, steps[1..], done.state, rng, count + 1, done.coverage, past)
  }

  /** The steps a plain operation list stands for: any verdict goes, and every step is checked. */
  function AnySteps(ops: seq<Op>): (steps: seq<ScenarioStep>)
    ensures |steps| == |ops|
  {
    seq(|ops|, i requires 0 <= i < |ops| => ScenarioStep(ops[i], ExpectAny, true))
  }
}
