/** What re-driving a recorded history reproduces, and what a cadence changes. */
module Replay {
  import opened Prelude
  import opened Outcome
  import opened Rng
  import opened Driver

  // ----- the recorded history -----

  /** A run only extends the history it was given, by one operation per step. */
  lemma {:induction false} HistoryGrows(h: Harness, every: nat, p: Progress)
    requires p.source.Valid()
    ensures var e := Drive(h, every, p);
            && p.history <= e.history
            && e.steps - p.steps == |e.history| - |p.history|
            && e.steps <= p.steps + p.source.Size()
    decreases p.source.Size()
  {
    hide Step;
    match Turn(h, every, p)
    case Done(_) =>
    case Continue(q) => HistoryGrows(h, every, q);
  }

  /** A fixed list leaves the generator alone, and is used up exactly by a run that passes. */
  lemma {:induction false} FixedRun(h: Harness, every: nat, p: Progress)
    requires p.source.Fixed?
    ensures var e := Drive(h, every, p);
            && e.rng == p.rng && !e.ending.SourceDry?
            && e.history <= p.history + p.source.ops
            && (e.ending.Passed? ==> e.history == p.history + p.source.ops)
    decreases p.source.Size()
  {
    hide Step;
    match Turn(h, every, p)
    case Done(_) =>
    case Continue(q) =>
      FixedRun(h, every, q);
      assert q.history + q.source.ops == p.history + p.source.ops;
  }

  /** What the replay of a run with this ending ends in: a dry source is not an operation to replay. */
  function ReplayEnding(ending: Ending): Ending {
    if ending.SourceDry? then Passed else ending
  }

  lemma {:induction false} ReplayFrom(h: Harness, every: nat, p: Progress, q: Progress)
    requires p.source.Valid()
    requires var e := Drive(h, every, p);
             p.history <= e.history
                 && q == Progress(p.state, q.rng, Fixed(e.history[|p.history|..]), p.steps, p.coverage, p.history)
    ensures var e, r := Drive(h, every, p), Drive(h, every, q);
            r == e.(rng := q.rng, ending := ReplayEnding(e.ending))
    decreases p.source.Size()
  {
    hide Step;
    var e := Drive(h, every, p);
    match Turn(h, every, p)
    case Done(_) =>
      if e.ending.StepFailed? {
        assert e.history == p.history + [e.ending.op];
        assert q.source.ops == [e.ending.op];
      } else {
        assert q.source.ops == [];
      }
    case Continue(p1) =>
      HistoryGrows(h, every, p1);
      var op := p1.history[|p.history|];
      assert q.source.ops == [op] + e.history[|p1.history|..];
      assert e.history[|p.history|..][1..] == e.history[|p1.history|..];
      var q1 := p1.(rng := q.rng, source := Fixed(e.history[|p1.history|..]));
      assert Turn(h, every, q) == Continue(q1);
      ReplayFrom(h, every, p1, q1);
  }

  /**
   * Replay fidelity: re-driving a run's history as a fixed list, from the same start and under the
   * same cadence, reproduces its steps, coverage, state and failure. The one exception is a run
   * that ended because no kind was drawable; its replay passes.
   */
  lemma ReplayReproduces(h: Harness, every: nat, state: State, rng: Prng, source: OpSource, rng': Prng)
    requires source.Valid()
    ensures var e := Drive(h, every, Start(h, state, rng, source));
            DriveFixed(h, every, state, rng', e.history) == e.(rng := rng', ending := ReplayEnding(e.ending))
  {
    var p := Start(h, state, rng, source);
    var e := Drive(h, every, p);
    HistoryGrows(h, every, p);
    assert e.history[0..] == e.history;
    ReplayFrom(h, every, p, Start(h, state, rng', Fixed(e.history)));
  }

  lemma {:induction false} PrefixPasses(h: Harness, every: nat, p: Progress, k: nat)
    requires p.source.Fixed? && k <= |p.source.ops|
    requires p.steps + k < Drive(h, every, p).steps
    ensures Drive(h, every, p.(source := Fixed(p.source.ops[..k]))).ending.Passed?
    decreases k
  {
    if k > 0 {
      var q := Turn(h, every, p).next;
      assert p.source.ops[..k][1..] == q.source.ops[..k - 1];
      PrefixPasses(h, every, q, k - 1);
    }
  }

  /** Every proper prefix of the recorded history of a run passes when driven on its own. */
  lemma ProperPrefixesPass(h: Harness, every: nat, state: State, rng: Prng, source: OpSource, rng': Prng, k: nat)
    requires source.Valid()
    requires k < |Drive(h, every, Start(h, state, rng, source)).history|
    ensures var e := Drive(h, every, Start(h, state, rng, source));
            DriveFixed(h, every, state, rng', e.history[..k]).ending.Passed?
  {
    var e := Drive(h, every, Start(h, state, rng, source));
    HistoryGrows(h, every, Start(h, state, rng, source));
    ReplayReproduces(h, every, state, rng, source, rng');
    PrefixPasses(h, every, Start(h, state, rng', Fixed(e.history)), k);
  }

  lemma {:induction false} ScenarioAgreesFrom(h: Harness, ops: seq<Op>, p: Progress)
    requires p.source == Fixed(ops)
    ensures DriveSteps(h, 1, AnySteps(ops), p.state, p.rng, p.steps, p.coverage, p.history) == Drive(h, 1, p)
    decreases |ops|
  {
    if ops != [] {
      assert AnySteps(ops)[1..] == AnySteps(ops[1..]);
      var done := ScenarioStepped(h, p.state, AnySteps(ops)[0], p.steps + 1, 1, p.coverage);
      assert done == Step(h, p.state, ops[0], true, p.coverage);
      if done.failure.None? {
        ScenarioAgreesFrom(h, ops[1..], Progress(done.state, p.rng, Fixed(ops[1..]), p.steps + 1,
                                                 done.coverage, p.history + [ops[0]]));
      }
    }
  }

  /** A scenario made of a plain list is the fixed driver at cadence 1. */
  lemma ScenarioAgrees(h: Harness, ops: seq<Op>, state: State, rng: Prng)
    ensures DriveSteps(h, 1, AnySteps(ops), state, rng, 0, Seed(Names(h)), [])
         == DriveFixed(h, 1, state, rng, ops)
  {
    ScenarioAgreesFrom(h, ops, Start(h, state, rng, Fixed(ops)));
  }

  // ----- what a step finds, invariant by invariant -----

  /** The state after the first `k` checks, each on the state the one before it left. */
  function Checked(h: Harness, invs: seq<Inv>, s: State, k: nat): State
    requires k <= |invs|
  {
    if k == 0 then s else h.check(Checked(h, invs, s, k - 1), invs[k - 1]).0
  }

  /** What check number `k` comes to when the checks before it have been made. */
  function CheckedAs(h: Harness, invs: seq<Inv>, s: State, k: nat): CheckOutcome
    requires k < |invs|
  {
    h.check(Checked(h, invs, s, k), invs[k]).1
  }

  /** Check number `k` is the first that is violated, and `kind` reports it. */
  predicate ViolatedFirst(h: Harness, invs: seq<Inv>, s: State, k: nat, kind: FailureKind) {
    && k < |invs| && CheckedAs(h, invs, s, k).Violated?
    && kind == Invariant(h.name(invs[k]), CheckedAs(h, invs, s, k).detail)
    && forall j :: 0 <= j < k ==> !CheckedAs(h, invs, s, j).Violated?
  }

  predicate NoneViolated(h: Harness, invs: seq<Inv>, s: State) {
    forall k :: 0 <= k < |invs| ==> !CheckedAs(h, invs, s, k).Violated?
  }

  /** All invariants hold or are skipped, or the first that is violated is the failure and the last one checked. */
  ghost predicate SweptAs(h: Harness, invs: seq<Inv>, s: State, after: State, failure: Option<FailureKind>) {
    if NoneViolated(h, invs, s) then failure.None? && after == Checked(h, invs, s, |invs|)
    else
      && failure.Some?
      && exists k: nat :: ViolatedFirst(h, invs, s, k, failure.value) && after == Checked(h, invs, s, k + 1)
  }

  lemma {:induction false} CheckedShift(h: Harness, invs: seq<Inv>, s: State, k: nat)
    requires k < |invs|
    ensures Checked(h, invs, s, k + 1) == Checked(h, invs[1..], h.check(s, invs[0]).0, k)
  {
    if k > 0 { CheckedShift(h, invs, s, k - 1); }
  }

  /** A sweep checks the invariants in turn, reports the first violation, and stops there. */
  lemma {:induction false} SweepFindsTheFirst(h: Harness, invs: seq<Inv>, s: State, c: Coverage)
    ensures var r := SweepFrom(h, invs, s, c);
            SweptAs(h, invs, s, r.state, r.failure)
  {
    if invs != [] {
      var (s1, outcome) := h.check(s, invs[0]);
      var rest := invs[1..];
      assert Checked(h, invs, s, 0) == s && CheckedAs(h, invs, s, 0) == outcome;
      assert Checked(h, invs, s, 1) == s1;
      var r := SweepFrom(h, invs, s, c);
      if outcome.Violated? {
        assert ViolatedFirst(h, invs, s, 0, r.failure.value);
      } else {
        SweepFindsTheFirst(h, rest, s1, c.Record(h.name(invs[0]), outcome));
        forall k | 0 <= k < |rest| ensures CheckedAs(h, invs, s, k + 1) == CheckedAs(h, rest, s1, k) {
          CheckedShift(h, invs, s, k);
        }
        hide SweepFrom, CheckedAs, Checked;
        RestOfTheSweep(h, invs, s, r);
      }
    }
  }

  lemma RestOfTheSweep(h: Harness, invs: seq<Inv>, s: State, r: Stepped)
    requires invs != [] && !CheckedAs(h, invs, s, 0).Violated?
    requires var rest, s1 := invs[1..], h.check(s, invs[0]).0;
             && (forall k :: 0 <= k < |rest| ==> CheckedAs(h, invs, s, k + 1) == CheckedAs(h, rest, s1, k))
             && SweptAs(h, rest, s1, r.state, r.failure)
    ensures SweptAs(h, invs, s, r.state, r.failure)
  {
    var rest, s1 := invs[1..], h.check(s, invs[0]).0;
    if NoneViolated(h, rest, s1) {
      forall k | 0 <= k < |invs| ensures !CheckedAs(h, invs, s, k).Violated? {
        if k > 0 { assert CheckedAs(h, invs, s, (k - 1) + 1) == CheckedAs(h, rest, s1, k - 1); }
      }
      if rest == [] {
        assert Checked(h, invs, s, 0) == s && Checked(h, invs, s, 1) == s1 == Checked(h, rest, s1, 0);
      } else {
        CheckedShift(h, invs, s, |rest|);
      }
    } else {
      var k: nat :| ViolatedFirst(h, rest, s1, k, r.failure.value) && r.state == Checked(h, rest, s1, k + 1);
      forall j | 0 <= j < k + 1 ensures !CheckedAs(h, invs, s, j).Violated? {
        if j > 0 { assert CheckedAs(h, invs, s, (j - 1) + 1) == CheckedAs(h, rest, s1, j - 1); }
      }
      assert CheckedAs(h, invs, s, k + 1) == CheckedAs(h, rest, s1, k);
      assert ViolatedFirst(h, invs, s, k + 1, r.failure.value);
      CheckedShift(h, invs, s, k + 1);
    }
  }

  // ----- which step of a list fails, and how -----

  /** The first violation of a state, read off the checks alone. */
  function FirstViolation(h: Harness, s: State, k: nat): Option<FailureKind>
    requires k <= |h.invariants|
    decreases |h.invariants| - k
  {
    if k == |h.invariants| then None
    else
      match CheckedAs(h, h.invariants, s, k)
      case Violated(detail) => Some(Invariant(h.name(h.invariants[k]), detail))
      case _ => FirstViolation(h, s, k + 1)
  }

  lemma {:induction false} FirstViolationIs(h: Harness, s: State, k: nat)
    requires k <= |h.invariants| && forall j :: 0 <= j < k ==> !CheckedAs(h, h.invariants, s, j).Violated?
    ensures var kind := FirstViolation(h, s, k);
            if kind.None? then NoneViolated(h, h.invariants, s)
            else exists j: nat :: ViolatedFirst(h, h.invariants, s, j, kind.value)
    decreases |h.invariants| - k
  {
    if k < |h.invariants| {
      var outcome := CheckedAs(h, h.invariants, s, k);
      if outcome.Violated? {
        assert ViolatedFirst(h, h.invariants, s, k, Invariant(h.name(h.invariants[k]), outcome.detail));
      } else {
        FirstViolationIs(h, s, k + 1);
        assert FirstViolation(h, s, k) == FirstViolation(h, s, k + 1);
      }
    }
  }

  lemma FirstIsUnique(h: Harness, s: State, j: nat, k: nat, a: FailureKind, b: FailureKind)
    requires ViolatedFirst(h, h.invariants, s, j, a) && ViolatedFirst(h, h.invariants, s, k, b)
    ensures j == k && a == b
  {
  }

  /** A sweep of the whole harness, as its failure and the state it leaves. */
  lemma SweepReports(h: Harness, s: State, c: Coverage)
    ensures Sweep(h, s, c).failure == FirstViolation(h, s, 0)
    ensures Sweep(h, s, c).failure.None? ==> Sweep(h, s, c).state == Checked(h, h.invariants, s, |h.invariants|)
  {
    SweepFindsTheFirst(h, h.invariants, s, c);
    FirstViolationIs(h, s, 0);
    var r := Sweep(h, s, c);
    hide SweepFrom, NoneViolated, ViolatedFirst, Checked;
    if r.failure.Some? {
      var j: nat :| ViolatedFirst(h, h.invariants, s, j, r.failure.value)
          && r.state == Checked(h, h.invariants, s, j + 1);
      var kind := FirstViolation(h, s, 0);
      var k: nat :| ViolatedFirst(h, h.invariants, s, k, kind.value);
      FirstIsUnique(h, s, j, k, r.failure.value, kind.value);
    }
  }

  /**
   * The first step of a list that fails, and its failure, told from the harness alone: an operation's
   * own error, or the first violation when the cadence `every` calls for checking after that step.
   */
  function FirstFailure(h: Harness, every: nat, s: State, ops: seq<Op>, n: nat): Option<(nat, FailureKind)> {
    if ops == [] then None
    else
      match h.apply(s, ops[0])
      case (_, Err(BugError(detail))) => Some((n + 1, Bug(detail)))
      case (_, Err(InfraError(detail))) => Some((n + 1, Infra(detail)))
      case (t, Ok(_)) =>
        if every == 0 || (n + 1) % every != 0 then FirstFailure(h, every, t, ops[1..], n + 1)
        else
          match FirstViolation(h, t, 0)
          case Some(kind) => Some((n + 1, kind))
          case None => FirstFailure(h, every, Checked(h, h.invariants, t, |h.invariants|), ops[1..], n + 1)
  }

  lemma {:induction false} DriveFailsFirst(h: Harness, every: nat, p: Progress)
    requires p.source.Fixed?
    ensures var e := Drive(h, every, p);
            match FirstFailure(h, every, p.state, p.source.ops, p.steps)
            case None => e.ending.Passed? && e.steps == p.steps + |p.source.ops|
            case Some((step, kind)) => e.Failure() == Some(kind) && e.steps == step
    decreases |p.source.ops|
  {
    if p.source.ops != [] {
      SweepReports(h, h.apply(p.state, p.source.ops[0]).0, p.coverage);
      hide Sweep, FirstViolation, Checked;
      match Turn(h, every, p)
      case Done(_) =>
      case Continue(q) => DriveFailsFirst(h, every, q);
    }
  }

  /** A fixed list fails exactly where, and as, `FirstFailure` reads it off the harness. */
  lemma FixedListFailsFirst(h: Harness, every: nat, state: State, rng: Prng, ops: seq<Op>)
    ensures var e := DriveFixed(h, every, state, rng, ops);
            match FirstFailure(h, every, state, ops, 0)
            case None => e.ending.Passed? && e.steps == |ops|
            case Some((step, kind)) => e.Failure() == Some(kind) && e.steps == step
  {
    DriveFailsFirst(h, every, Start(h, state, rng, Fixed(ops)));
  }

  /**
   * The same for a scenario: an operation's own error, a verdict that was not the expected one, told
   * by its step number, or the first violation where step and cadence call for a check.
   */
  function FirstScenarioFailure(h: Harness, every: nat, s: State, steps: seq<ScenarioStep>, n: nat)
    : Option<(nat, FailureKind)>
  {
    if steps == [] then None
    else
      var step := steps[0];
      var number: nat := n + 1;
      match h.apply(s, step.op)
      case (_, Err(BugError(detail))) => Some((number, Bug(detail)))
      case (_, Err(InfraError(detail))) => Some((number, Infra(detail)))
      case (t, Ok(verdict)) =>
        if step.wanted.ExpectAccepted? && verdict.Rejected? then
          Some((number, Bug("step " + Decimal(number) + ": expected acceptance, operation was rejected")))
        else if step.wanted.ExpectRejected? && verdict.Accepted? then
          Some((number, Bug("step " + Decimal(number) + ": expected rejection, operation was accepted")))
        else if !step.check || every == 0 || number % every != 0 then
          FirstScenarioFailure(h, every, t, steps[1..], number)
        else
          match FirstViolation(h, t, 0)
          case Some(kind) => Some((number, kind))
          case None =>
            FirstScenarioFailure(h, every, Checked(h, h.invariants, t, |h.invariants|), steps[1..], number)
  }

  /** A scenario fails exactly where, and as, `FirstScenarioFailure` reads it off the harness. */
  lemma {:induction false} ScenarioFailsFirst(h: Harness, every: nat, steps: seq<ScenarioStep>, s: State, rng: Prng,
                                              count: nat, coverage: Coverage, history: seq<Op>)
    ensures var e := DriveSteps(h, every, steps, s, rng, count, coverage, history);
            match FirstScenarioFailure(h, every, s, steps, count)
            case None => e.ending.Passed? && e.steps == count + |steps|
            case Some((step, kind)) => e.Failure() == Some(kind) && e.steps == step
    decreases |steps|
  {
    if steps != [] {
      SweepReports(h, h.apply(s, steps[0].op).0, coverage);
      hide Sweep, FirstViolation, Checked, Decimal;
      var done := ScenarioStepped(h, s, steps[0], count + 1, every, coverage);
      if done.failure.None? {
        ScenarioFailsFirst(h, every, steps[1..], done.state, rng, count + 1, done.coverage, history + [steps[0].op]);
      }
    }
  }

  // ----- denser checking -----

  /** Checking an invariant leaves the context and the world as they were. */
  ghost predicate ChecksArePure(h: Harness) {
    forall s: State, inv: Inv :: h.check(s, inv).0 == s
  }

  /** Cadence `a` checks after every step that cadence `b` checks after. */
  predicate Denser(a: nat, b: nat) {
    b == 0 || (a > 0 && b % a == 0)
  }

  lemma {:induction false} SweepVerdictIgnoresCoverage(h: Harness, invs: seq<Inv>, s: State, c: Coverage, d: Coverage)
    ensures var x, y := SweepFrom(h, invs, s, c), SweepFrom(h, invs, s, d);
            x.state == y.state && x.failure == y.failure
    ensures ChecksArePure(h) ==> SweepFrom(h, invs, s, c).state == s
  {
    if invs != [] {
      var (s1, outcome) := h.check(s, invs[0]);
      var name := h.name(invs[0]);
      SweepVerdictIgnoresCoverage(h, invs[1..], s1, c.Record(name, outcome), d.Record(name, outcome));
    }
  }

  lemma {:induction false} DenserFrom(h: Harness, a: nat, b: nat, p: Progress, q: Progress)
    requires ChecksArePure(h) && Denser(a, b)
    requires p.source.Fixed? && q.source == p.source && q.state == p.state && q.steps == p.steps
    requires Drive(h, b, p).ending.StepFailed?
    ensures Drive(h, a, q).ending.StepFailed? && Drive(h, a, q).steps <= Drive(h, b, p).steps
    decreases |p.source.ops|
  {
    var op := p.source.ops[0];
    var step := p.steps + 1;
    if Due(b, step) { MultiplesNest(a, b, step); }
    var s := h.apply(p.state, op).0;
    SweepVerdictIgnoresCoverage(h, h.invariants, s, p.coverage, q.coverage);
    SweepVerdictIgnoresCoverage(h, h.invariants, s, q.coverage, p.coverage);
    var x, y := Turn(h, b, p), Turn(h, a, q);
    if x.Done? {
      assert y.Done?;
    } else if y.Continue? {
      DenserFrom(h, a, b, x.next, y.next);
    } else {
      HistoryGrowsSteps(h, b, x.next);
    }
  }

  lemma HistoryGrowsSteps(h: Harness, every: nat, p: Progress)
    requires p.source.Valid()
    ensures Drive(h, every, p).steps >= p.steps
  {
    HistoryGrows(h, every, p);
  }

  /** With pure checks, checking more often never makes a fixed list fail later. */
  lemma DenserCheckingFailsNoLater(h: Harness, a: nat, b: nat, state: State, rng: Prng, ops: seq<Op>)
    requires ChecksArePure(h) && Denser(a, b)
    requires DriveFixed(h, b, state, rng, ops).ending.StepFailed?
    ensures DriveFixed(h, a, state, rng, ops).ending.StepFailed?
    ensures DriveFixed(h, a, state, rng, ops).steps <= DriveFixed(h, b, state, rng, ops).steps
  {
    DenserFrom(h, a, b, Start(h, state, rng, Fixed(ops)), Start(h, state, rng, Fixed(ops)));
  }

  /** `replay`, which checks after every operation, fails on every recorded operation or invariant failure. */
  lemma RecordedFailureReplaysAtCadenceOne(h: Harness, every: nat, state: State, rng: Prng, source: OpSource)
    requires ChecksArePure(h) && source.Valid()
    requires Drive(h, every, Start(h, state, rng, source)).ending.StepFailed?
    ensures var e := Drive(h, every, Start(h, state, rng, source));
            var r := DriveFixed(h, 1, state, rng, e.history);
            r.ending.StepFailed? && r.steps <= e.steps
  {
    var e := Drive(h, every, Start(h, state, rng, source));
    ReplayReproduces(h, every, state, rng, source, rng);
    DenserCheckingFailsNoLater(h, 1, every, state, rng, e.history);
  }

  // ----- coverage accounting -----

  /** How many invariants of the harness carry `name`. */
  function Multiplicity(h: Harness, name: string): nat {
    CountNamed(h, h.invariants, name)
  }

  function CountNamed(h: Harness, invs: seq<Inv>, name: string): nat {
    if invs == [] then 0 else (if h.name(invs[0]) == name then 1 else 0) + CountNamed(h, invs[1..], name)
  }

  function ViolationsOf(kind: FailureKind, name: string): nat {
    if kind.Invariant? && kind.name == name then 1 else 0
  }

  lemma {:induction false} SweepAccounting(h: Harness, invs: seq<Inv>, s: State, c: Coverage, name: string)
    ensures var r, before := SweepFrom(h, invs, s, c), c.Entry(name);
            var after := r.coverage.Entry(name);
            && (r.failure.None? ==> after.Total() == before.Total() + CountNamed(h, invs, name))
            && (r.failure.None? ==> after.violated == before.violated)
            && (r.failure.Some? ==> r.failure.value.Invariant?)
            && (r.failure.Some? ==> after.violated == before.violated + ViolationsOf(r.failure.value, name))
  {
    hide Coverage.Record, Coverage.Entry;
    if invs != [] {
      var (s1, outcome) := h.check(s, invs[0]);
      var checked := h.name(invs[0]);
      RecordEntry(c, checked, outcome, name);
      var c1 := c.Record(checked, outcome);
      if !outcome.Violated? {
        SweepAccounting(h, invs[1..], s1, c1, name);
        assert SweepFrom(h, invs, s, c) == SweepFrom(h, invs[1..], s1, c1);
      } else {
        assert SweepFrom(h, invs, s, c) == Stepped(s1, c1, Some(Invariant(checked, outcome.detail)));
      }
    }
  }

  lemma {:induction false} SweepKeepsSkipsExplained(h: Harness, invs: seq<Inv>, s: State, c: Coverage)
    requires c.SkipsExplained()
    ensures SweepFrom(h, invs, s, c).coverage.SkipsExplained()
  {
    if invs != [] {
      var (s1, outcome) := h.check(s, invs[0]);
      RecordKeepsSkipsExplained(c, h.name(invs[0]), outcome);
      SweepKeepsSkipsExplained(h, invs[1..], s1, c.Record(h.name(invs[0]), outcome));
    }
  }

  /** The number of sweeps a cadence has run after `steps` steps. */
  function Sweeps(every: nat, steps: nat): nat {
    if every == 0 then 0 else steps / every
  }

  lemma SweepsStep(every: nat, steps: nat)
    ensures Sweeps(every, steps + 1) == Sweeps(every, steps) + (if Due(every, steps + 1) then 1 else 0)
  {
    if every > 0 { QuotientSucc(steps, every); }
  }

  /** The checks of `name` that the cadence calls for in `steps` steps. */
  function Expected(h: Harness, every: nat, steps: nat, name: string): nat {
    if steps == 0 then 0
    else Expected(h, every, steps - 1, name) + (if Due(every, steps) then Multiplicity(h, name) else 0)
  }

  lemma ExpectedUnfolds(h: Harness, every: nat, steps: nat, name: string)
    ensures Expected(h, every, 0, name) == 0 && Sweeps(every, 0) == 0
    ensures Expected(h, every, steps + 1, name)
         == Expected(h, every, steps, name) + (if Due(every, steps + 1) then Multiplicity(h, name) else 0)
  {
    if every > 0 { QuotientIs(0, every, 0, 0); }
  }

  lemma {:induction false} ExpectedIsProduct(h: Harness, every: nat, steps: nat, name: string)
    ensures Expected(h, every, steps, name) == Multiplicity(h, name) * Sweeps(every, steps)
  {
    hide Expected, Sweeps, Due, Multiplicity;
    if steps == 0 {
      ExpectedUnfolds(h, every, 0, name);
    } else {
      ExpectedIsProduct(h, every, steps - 1, name);
      ExpectedUnfolds(h, every, steps - 1, name);
      SweepsStep(every, steps - 1);
      if Due(every, steps) { Distribute(Sweeps(every, steps - 1), 1, Multiplicity(h, name)); }
    }
  }

  ghost predicate Accounted(h: Harness, every: nat, steps: nat, c: Coverage, name: string) {
    c.Entry(name).Total() == Expected(h, every, steps, name) && c.Entry(name).violated == 0
  }

  lemma StepAccounting(h: Harness, every: nat, steps: nat, s: State, op: Op, c: Coverage, name: string)
    requires Accounted(h, every, steps, c, name)
    ensures var r := Step(h, s, op, Due(every, steps + 1), c);
            && (r.failure.None? ==> Accounted(h, every, steps + 1, r.coverage, name))
            && (r.failure.Some? ==> r.coverage.Entry(name).violated == ViolationsOf(r.failure.value, name))
  {
    SweepAccounting(h, h.invariants, h.apply(s, op).0, c, name);
  }

  lemma {:induction false} AccountingFrom(h: Harness, every: nat, p: Progress, name: string)
    requires p.source.Valid() && Accounted(h, every, p.steps, p.coverage, name)
    ensures var e := Drive(h, every, p);
            if e.ending.StepFailed? then e.coverage.Entry(name).violated == ViolationsOf(e.ending.kind, name)
            else Accounted(h, every, e.steps, e.coverage, name)
    decreases p.source.Size()
  {
    hide Next, Step, Accounted;
    match Next(h, p.source, p.state, p.rng) {
      case Drawn(op, _, _) => StepAccounting(h, every, p.steps, p.state, op, p.coverage, name);
      case _ =>
    }
    match Turn(h, every, p)
    case Done(_) =>
    case Continue(q) => AccountingFrom(h, every, q, name);
  }

  lemma StartAccounted(h: Harness, every: nat, state: State, rng: Prng, source: OpSource, name: string)
    ensures Accounted(h, every, 0, Start(h, state, rng, source).coverage, name)
  {
    SeedIsZero(Names(h), name);
  }

  /** What the accounting of a whole run says: see `CoverageAccounting`. */
  ghost predicate RunAccounted(h: Harness, every: nat, e: Exit, name: string) {
    var tally := e.coverage.Entry(name);
    if e.ending.StepFailed? then tally.violated == ViolationsOf(e.ending.kind, name)
    else tally.Total() == Multiplicity(h, name) * Sweeps(every, e.steps) && tally.violated == 0
  }

  lemma ExitAccounted(h: Harness, every: nat, e: Exit, name: string)
    requires if e.ending.StepFailed? then e.coverage.Entry(name).violated == ViolationsOf(e.ending.kind, name)
             else Accounted(h, every, e.steps, e.coverage, name)
    ensures RunAccounted(h, every, e, name)
  {
    ExpectedIsProduct(h, every, e.steps, name);
  }

  /**
   * Coverage accounting: a run that no step failed checked every invariant name its multiplicity
   * times per due step and found no violation; a failed run shows exactly one violation, under the
   * name its failure reports, and none when an operation failed.
   */
  lemma CoverageAccounting(h: Harness, every: nat, state: State, rng: Prng, source: OpSource, name: string)
    requires source.Valid()
    ensures RunAccounted(h, every, Drive(h, every, Start(h, state, rng, source)), name)
  {
    hide Drive, Accounted, RunAccounted;
    var p := Start(h, state, rng, source);
    StartAccounted(h, every, state, rng, source, name);
    AccountingFrom(h, every, p, name);
    ExitAccounted(h, every, Drive(h, every, p), name);
  }

  lemma {:induction false} SkipsExplainedFrom(h: Harness, every: nat, p: Progress)
    requires p.source.Valid() && p.coverage.SkipsExplained()
    ensures Drive(h, every, p).coverage.SkipsExplained()
    decreases p.source.Size()
  {
    match Next(h, p.source, p.state, p.rng) {
      case Drawn(op, _, _) => SweepKeepsSkipsExplained(h, h.invariants, h.apply(p.state, op).0, p.coverage);
      case _ =>
    }
    match Turn(h, every, p)
    case Done(_) =>
    case Continue(q) => SkipsExplainedFrom(h, every, q);
  }

  /** On every exit the report's skip count is the number of skip reasons stored. */
  lemma ReportedSkipsAreReasons(h: Harness, every: nat, state: State, rng: Prng, source: OpSource, seed: nat,
                                mode: string)
    requires source.Valid()
    ensures var r := Report(seed, mode, Drive(h, every, Start(h, state, rng, source)));
            r.skipped == r.coverage.TotalReasons()
  {
    var p := Start(h, state, rng, source);
    SkipsExplainedFrom(h, every, p);
    SkipCountIsReasonCount(Drive(h, every, p).coverage);
  }

  lemma {:induction false} ScenarioKeepsSkipsExplained(h: Harness, every: nat, steps: seq<ScenarioStep>,
                                                       state: State, rng: Prng, count: nat, coverage: Coverage,
                                                       history: seq<Op>)
    requires coverage.SkipsExplained()
    ensures DriveSteps(h, every, steps, state, rng, count, coverage, history).coverage.SkipsExplained()
    decreases |steps|
  {
    if steps != [] {
      var done := ScenarioStepped(h, state, steps[0], count + 1, every, coverage);
      SweepKeepsSkipsExplained(h, h.invariants, h.apply(state, steps[0].op).0, coverage);
      if done.failure.None? {
        ScenarioKeepsSkipsExplained(h, every, steps[1..], done.state, rng, count + 1, done.coverage,
                                    history + [steps[0].op]);
      }
    }
  }

  /** The same for the scenario driver, whatever the steps expect. */
  lemma ScenarioSkipsAreReasons(h: Harness, every: nat, steps: seq<ScenarioStep>, state: State, rng: Prng, seed: nat,
                                mode: string)
    ensures var r := Report(seed, mode, DriveSteps(h, every, steps, state, rng, 0, Seed(Names(h)), []));
            r.skipped == r.coverage.TotalReasons()
  {
    ScenarioKeepsSkipsExplained(h, every, steps, state, rng, 0, Seed(Names(h)), []);
    SkipCountIsReasonCount(DriveSteps(h, every, steps, state, rng, 0, Seed(Names(h)), []).coverage);
  }

  // ----- what a report tells -----

  /** A name once listed stays listed, also when nothing ever checks it. */
  lemma {:induction false} SweepKeepsNames(h: Harness, invs: seq<Inv>, s: State, c: Coverage)
    ensures c.tallies.Keys <= SweepFrom(h, invs, s, c).coverage.tallies.Keys
  {
    if invs != [] {
      var (s1, outcome) := h.check(s, invs[0]);
      SweepKeepsNames(h, invs[1..], s1, c.Record(h.name(invs[0]), outcome));
    }
  }

  lemma {:induction false} DriveKeepsNames(h: Harness, every: nat, p: Progress)
    requires p.source.Valid()
    ensures p.coverage.tallies.Keys <= Drive(h, every, p).coverage.tallies.Keys
    decreases p.source.Size()
  {
    match Next(h, p.source, p.state, p.rng) {
      case Drawn(op, _, _) => SweepKeepsNames(h, h.invariants, h.apply(p.state, op).0, p.coverage);
      case _ =>
    }
    hide SweepFrom;
    match Turn(h, every, p)
    case Done(_) =>
    case Continue(q) => DriveKeepsNames(h, every, q);
  }

  lemma {:induction false} FailedOpIsLast(h: Harness, every: nat, p: Progress)
    requires p.source.Valid()
    ensures var e := Drive(h, every, p);
            e.ending.StepFailed? ==> e.history != [] && e.history[|e.history| - 1] == e.ending.op
    decreases p.source.Size()
  {
    hide Step;
    match Turn(h, every, p)
    case Done(_) =>
    case Continue(q) => FailedOpIsLast(h, every, q);
  }

  /**
   * The report of a run: one step per recorded operation, every invariant listed, and a failure
   * exactly when the run did not pass, at the last step, on the last operation, with the whole history.
   */
  lemma ReportTellsTheRun(h: Harness, every: nat, state: State, rng: Prng, source: OpSource, seed: nat, mode: string)
    requires source.Valid()
    ensures var e := Drive(h, every, Start(h, state, rng, source));
            var r := Report(seed, mode, e);
            && r.seed == seed && r.mode == mode && r.steps == |e.history|
            && (forall inv :: inv in h.invariants ==> h.name(inv) in r.coverage.tallies)
            && (r.failure.None? <==> e.ending.Passed?)
            && (r.failure.Some? ==>
                  && r.failure.value.step == r.steps && r.failure.value.history == e.history
                  && r.failure.value.op == (if e.history == [] then None else Some(e.history[|e.history| - 1]))
                  && (e.ending.StepFailed? ==> r.failure.value.kind == e.ending.kind)
                  && (e.ending.SourceDry? ==> r.failure.value.kind.Infra?))
  {
    var p := Start(h, state, rng, source);
    HistoryGrows(h, every, p);
    DriveKeepsNames(h, every, p);
    FailedOpIsLast(h, every, p);
    hide Drive;
    forall inv | inv in h.invariants ensures h.name(inv) in p.coverage.tallies {
      var i :| 0 <= i < |h.invariants| && h.invariants[i] == inv;
      assert Names(h)[i] == h.name(inv);
    }
  }
}
