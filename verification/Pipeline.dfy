/**
 * Running a suite: dependency gating and exit codes from `crates/harness-cli/src/cli.rs`, and the
 * single world slot through which phases hand their ending world on, from
 * `crates/harness-cli/src/registry.rs`.
 *
 * A world here is the live context together with the model world. What a profile does to it is a
 * parameter (`Env`), so every theorem holds for every harness.
 */
module Pipeline {
  import opened Prelude
  import opened Outcome
  import opened Validate
  import Rng

  type World(!new)

  datatype RunError = UnknownHarness | ValidationFailed | SetupFailed | SerializeFailed | InvalidRun
                    | NoDonorWorld | UnsupportedMode | ExportFailed

  /**
   * What the harness and the environment decide. `precheck` covers what can be refused about the
   * profile before a starting world is obtained, `decode` what can be refused right after it.
   */
  datatype Env = Env(
    registered: bool,
    profiles: map<string, Profile>,
    caseOverride: Option<Rng.u64>,
    precheck: string -> Option<RunError>,
    seed: string -> Rng.u64,
    setup: (string, nat) -> Result<World, RunError>,
    patch: Option<(World, Params) -> Option<World>>,
    decode: string -> Option<RunError>,
    drive: (string, nat, World) -> (World, Option<FailureKind>),
    exportWorld: (string, World) -> Option<RunError>,
    stopped: nat -> bool
  )

  // ----- exit codes -----

  function ExitCodeFor(failure: Option<FailureKind>): nat {
    match failure
    case None => 0
    case Some(Infra(_)) => 2
    case Some(_) => 1
  }

  function ExitCodeForError(e: RunError): nat {
    match e
    case UnknownHarness => 3
    case ValidationFailed => 3
    case InvalidRun => 3
    case NoDonorWorld => 3
    case UnsupportedMode => 3
    case SetupFailed => 2
    case SerializeFailed => 2
    case ExportFailed => 2
  }

  function ResultCode(result: Result<Option<FailureKind>, RunError>): nat {
    match result
    case Ok(failure) => ExitCodeFor(failure)
    case Err(e) => ExitCodeForError(e)
  }

  function SeverityRank(code: nat): nat {
    if code == 0 then 0 else if code == 2 then 1 else if code == 1 then 2 else 3
  }

  function Worse(worst: nat, code: nat): nat {
    if SeverityRank(code) > SeverityRank(worst) then code else worst
  }

  /** The fold behind the process exit code. */
  function Combine(codes: seq<nat>): nat {
    if codes == [] then 0 else Worse(Combine(codes[..|codes| - 1]), codes[|codes| - 1])
  }

  method CombineCodes(codes: seq<nat>) returns (worst: nat)
    ensures worst == Combine(codes)
    ensures (forall c :: c in codes ==> c <= 3) ==>
              worst == if 3 in codes then 3 else if 1 in codes then 1 else if 2 in codes then 2 else 0
  {
    worst := 0;
    for i := 0 to |codes|
      invariant worst == Combine(codes[..i])
    {
      assert codes[..i + 1][..i] == codes[..i];
      worst := Worse(worst, codes[i]);
    }
    assert codes[..|codes|] == codes;
    if forall c :: c in codes ==> c <= 3 { CombineIsSeverest(codes); }
  }

  /** The folded code is one of the codes, and none is more severe. */
  lemma {:induction false} CombineIsWorst(codes: seq<nat>)
    ensures Combine(codes) == 0 || Combine(codes) in codes
    ensures forall c :: c in codes ==> SeverityRank(c) <= SeverityRank(Combine(codes))
  {
    if codes != [] {
      var init := codes[..|codes| - 1];
      CombineIsWorst(init);
      assert codes == init + [codes[|codes| - 1]];
    }
  }

  /** Over the codes 0 to 3 the fold is independent of order, and 0 exactly when all are. */
  lemma CombineIgnoresOrder(codes: seq<nat>, shuffled: seq<nat>)
    requires multiset(codes) == multiset(shuffled)
    requires forall c :: c in codes ==> c <= 3
    ensures Combine(codes) == Combine(shuffled)
    ensures Combine(codes) == 0 <==> forall c :: c in codes ==> c == 0
  {
    CombineIsWorst(codes);
    CombineIsWorst(shuffled);
    assert forall c :: c in codes <==> c in multiset(codes);
    assert forall c :: c in shuffled <==> c in multiset(shuffled);
    var a, b := Combine(codes), Combine(shuffled);
    assert SeverityRank(a) <= SeverityRank(b) && SeverityRank(b) <= SeverityRank(a);
  }

  /** Over the codes 0 to 3: a usage error dominates, then a bug, then an outage, then a pass. */
  lemma {:induction false} CombineIsSeverest(codes: seq<nat>)
    requires forall c :: c in codes ==> c <= 3
    ensures Combine(codes) <= 3
    ensures Combine(codes) == 3 <==> 3 in codes
    ensures Combine(codes) == 1 <==> 1 in codes && 3 !in codes
    ensures Combine(codes) == 2 <==> 2 in codes && 1 !in codes && 3 !in codes
  {
    if codes != [] {
      var init, last := codes[..|codes| - 1], codes[|codes| - 1];
      assert last in codes && forall c :: c in codes <==> c in init || c == last;
      CombineIsSeverest(init);
    }
  }

  /** For any codes at all: the first one that is not 0, 1 or 2 is the result. */
  lemma {:induction false} FirstGravestWins(codes: seq<nat>, i: nat)
    requires i < |codes| && codes[i] !in {0, 1, 2} && forall j :: 0 <= j < i ==> codes[j] in {0, 1, 2}
    ensures Combine(codes) == codes[i]
  {
    var init, last := codes[..|codes| - 1], codes[|codes| - 1];
    if i < |init| {
      FirstGravestWins(init, i);
    } else {
      CombineIsWorst(init);
      assert Combine(init) == 0 || Combine(init) in init;
    }
  }

  // ----- one phase -----

  /** A world left behind, and the index of the phase that left it. */
  datatype Stash = Stash(donor: nat, world: World)

  /** How a phase came by its starting world. */
  datatype Obtained = NotReached | Built | Took(stash: Stash) | FoundEmpty

  /** One phase's effect: the slot after it, how it started, how it ended, and its result. */
  datatype PhaseRun = PhaseRun(slot: Option<Stash>, obtained: Obtained, ended: Option<World>,
                               result: Result<Option<FailureKind>, RunError>)

  function Refused(slot: Option<Stash>, obtained: Obtained, e: RunError): PhaseRun {
    PhaseRun(slot, obtained, None, Err(e))
  }

  function RunFromWorld(env: Env, plan: SuitePhase, index: nat, seed: nat, stash: bool, slot: Option<Stash>,
                        obtained: Obtained, start: World): PhaseRun {
    if plan.params.Some? && env.patch.None? then Refused(slot, obtained, InvalidRun)
    else
      var patched := if plan.params.Some? then env.patch.value(start, plan.params.value) else Some(start);
      if patched.None? then Refused(slot, obtained, SetupFailed)
      else if env.decode(plan.profile).Some? then Refused(slot, obtained, env.decode(plan.profile).value)
      else
        var (ended, failure) := env.drive(plan.profile, seed, patched.value);
        var exported := env.exportWorld(plan.profile, ended);
        if exported.Some? then PhaseRun(slot, obtained, Some(ended), Err(exported.value))
        else
          var left := if stash && failure.None? then Some(Stash(index, ended)) else slot;
          PhaseRun(left, obtained, Some(ended), Ok(failure))
  }

  /** A phase with a single starting world: built fresh, or taken out of the slot. */
  function RunSingle(env: Env, plan: SuitePhase, index: nat, seed: nat, stash: bool, slot: Option<Stash>): PhaseRun {
    match plan.world
    case Fresh =>
      (match env.setup(plan.profile, seed)
       case Err(e) => Refused(slot, NotReached, e)
       case Ok(start) => RunFromWorld(env, plan, index, seed, stash, slot, Built, start))
    case Inherit =>
      if slot.None? then Refused(slot, FoundEmpty, NoDonorWorld)
      else RunFromWorld(env, plan, index, seed, stash, None, Took(slot.value), slot.value.world)
  }

  function CaseSeed(base: Rng.u64, index: Rng.u64): nat {
    Rng.SubSeed(base, index)
  }

  /** A plain fuzz phase: one fresh world per case, ending at the first case that fails. */
  function RunCases(env: Env, profile: string, base: Rng.u64, next: nat, cases: Rng.u64)
    : Result<Option<FailureKind>, RunError>
    requires next < cases
    decreases cases - next
  {
    var seed := CaseSeed(base, next);
    match env.setup(profile, seed)
    case Err(e) => Err(e)
    case Ok(start) =>
      var failure := env.drive(profile, seed, start).1;
      if failure.Some? || next + 1 == cases then Ok(failure) else RunCases(env, profile, base, next + 1, cases)
  }

  /** Whether fuzz case `c` of a profile gets a world and fails on it. */
  predicate CaseFails(env: Env, profile: string, base: Rng.u64, c: Rng.u64, failure: Option<FailureKind>) {
    var setup := env.setup(profile, CaseSeed(base, c));
    setup.Ok? && env.drive(profile, CaseSeed(base, c), setup.value).1 == failure
  }

  /** A fuzz phase reports its first failing case, or a pass once every case passed. */
  lemma {:induction false} FuzzReportsFirstFailure(env: Env, profile: string, base: Rng.u64, next: nat, cases: Rng.u64)
    requires next < cases && RunCases(env, profile, base, next, cases).Ok?
    ensures match RunCases(env, profile, base, next, cases).value
            case None => forall c :: next <= c < cases ==> CaseFails(env, profile, base, c, None)
            case Some(f) =>
              exists c :: next <= c < cases && CaseFails(env, profile, base, c, Some(f))
                && forall b :: next <= b < c ==> CaseFails(env, profile, base, b, None)
    decreases cases - next
  {
    hide CaseSeed;
    var seed := CaseSeed(base, next);
    var failure := env.drive(profile, seed, env.setup(profile, seed).value).1;
    assert CaseFails(env, profile, base, next, failure);
    if failure.None? && next + 1 < cases {
      FuzzReportsFirstFailure(env, profile, base, next + 1, cases);
    }
  }

  /** No two cases of a fuzz phase are driven from the same seed. */
  lemma FuzzSeedsDistinct(base: Rng.u64, cases: Rng.u64, b: nat, c: nat)
    requires b < c < cases
    ensures CaseSeed(base, b) != CaseSeed(base, c) && CaseSeed(base, c) == Rng.SubSeed(base, c)
  {
    if CaseSeed(base, b) == CaseSeed(base, c) { Rng.SubSeedInjective(base, b, c); }
  }

  function Cases(env: Env, p: Profile): Rng.u64
    requires p.Fuzz?
  {
    if env.caseOverride.Some? then env.caseOverride.value else p.cases
  }

  function RunPhase(env: Env, plan: SuitePhase, index: nat, stash: bool, slot: Option<Stash>): PhaseRun
    requires plan.profile in env.profiles
  {
    var p := env.profiles[plan.profile];
    var early := env.precheck(plan.profile);
    var base := env.seed(plan.profile);
    if !env.registered then Refused(slot, NotReached, UnknownHarness)
    else if p.Fuzz? && Cases(env, p) == 0 then Refused(slot, NotReached, InvalidRun)
    else if early.Some? then Refused(slot, NotReached, early.value)
    else if !p.Fuzz? then RunSingle(env, plan, index, base, stash, slot)
    else if plan.world.Fresh? && !stash && plan.params.None? then
      PhaseRun(slot, Built, None, RunCases(env, plan.profile, base, 0, Cases(env, p)))
    else if Cases(env, p) != 1 then Refused(slot, NotReached, InvalidRun)
    else RunSingle(env, plan, index, CaseSeed(base, 0), stash, slot)
  }

  // ----- the whole suite -----

  datatype PhaseOutcome = Passed | Failed | Skipped

  /** What became of one phase; a phase that was skipped or did not resolve has no result. */
  datatype PhaseRecord = PhaseRecord(outcome: PhaseOutcome, code: Option<nat>,
                                     result: Option<Result<Option<FailureKind>, RunError>>,
                                     obtained: Obtained, ended: Option<World>)

  datatype SuiteRun = SuiteRun(slot: Option<Stash>, outcomes: map<string, PhaseOutcome>, code: nat,
                               records: seq<PhaseRecord>)

  const FIRST := SuiteRun(None, map[], 0, [])

  /** A later phase inherits from phase `i`, so its ending world is stashed. */
  predicate Stashes(phases: seq<SuitePhase>, i: nat)
    requires i < |phases|
  {
    exists j :: i < j < |phases| && InheritsFrom(phases[j], phases[i].profile)
  }

  predicate Gated(outcomes: map<string, PhaseOutcome>, plan: SuitePhase) {
    exists d :: d in plan.needs && !(d in outcomes && outcomes[d].Passed?)
  }

  function RecordPhase(st: SuiteRun, profile: string, record: PhaseRecord, slot: Option<Stash>): SuiteRun {
    SuiteRun(slot, st.outcomes[profile := record.outcome],
             if record.code.Some? then Worse(st.code, record.code.value) else st.code,
             st.records + [record])
  }

  /** What happens when it is phase `i`'s turn. */
  function PhaseTurn(env: Env, phases: seq<SuitePhase>, i: nat, st: SuiteRun): SuiteRun
    requires i < |phases|
  {
    var plan := phases[i];
    if Gated(st.outcomes, plan) then
      RecordPhase(st, plan.profile, PhaseRecord(PhaseOutcome.Skipped, None, None, NotReached, None), st.slot)
    else if plan.profile !in env.profiles then
      RecordPhase(st, plan.profile, PhaseRecord(Failed, Some(3), None, NotReached, None), st.slot)
    else
      var run := RunPhase(env, plan, i, Stashes(phases, i), st.slot);
      var code := ResultCode(run.result);
      RecordPhase(st, plan.profile,
                  PhaseRecord(if code == 0 then Passed else Failed, Some(code), Some(run.result),
                              run.obtained, run.ended),
                  run.slot)
  }

  /** The loop over the phases; it ends early on a stop request, or on a failure when so configured. */
  function RunFrom(env: Env, phases: seq<SuitePhase>, stopOnFailure: bool, i: nat, st: SuiteRun): SuiteRun
    requires i <= |phases|
    decreases |phases| - i
  {
    if i == |phases| || env.stopped(i) then st
    else
      var next := PhaseTurn(env, phases, i, st);
      if stopOnFailure && next.records != [] && next.records[|next.records| - 1].outcome.Failed? then next
      else RunFrom(env, phases, stopOnFailure, i + 1, next)
  }

  function RunSuite(env: Env, phases: seq<SuitePhase>, stopOnFailure: bool): SuiteRun {
    RunFrom(env, phases, stopOnFailure, 0, FIRST)
  }

  // ----- gating -----

  /** Phase `k` needs phase `j` directly, or through the phases between them. */
  ghost predicate NeedsPhase(phases: seq<SuitePhase>, k: nat, j: nat)
    requires k < |phases| && j < |phases|
    decreases k
  {
    exists m :: 0 <= m < k && phases[m].profile in phases[k].needs && (m == j || NeedsPhase(phases, m, j))
  }

  /** The codes of the phases that ran, in order. */
  function Codes(records: seq<PhaseRecord>): seq<nat> {
    if records == [] then []
    else
      var last := records[|records| - 1];
      Codes(records[..|records| - 1]) + if last.code.Some? then [last.code.value] else []
  }

  /** The phase was asked for something the configuration or the command line got wrong. */
  predicate UsageError(r: PhaseRecord) {
    r.outcome.Failed? &&
    match r.result
    case None => true
    case Some(Ok(_)) => false
    case Some(Err(e)) => e in {UnknownHarness, ValidationFailed, InvalidRun, NoDonorWorld, UnsupportedMode}
  }

  /** The phase ran and found a bug or a violated invariant. */
  predicate FoundBug(r: PhaseRecord) {
    r.result.Some? && r.result.value.Ok? && r.result.value.value.Some?
    && (r.result.value.value.value.Bug? || r.result.value.value.value.Invariant?)
  }

  /** The phase ended in a failure of the infrastructure around it. */
  predicate MetOutage(r: PhaseRecord) {
    r.result.Some? &&
    match r.result.value
    case Ok(failure) => failure.Some? && failure.value.Infra?
    case Err(e) => e in {SetupFailed, SerializeFailed, ExportFailed}
  }

  predicate RanClean(r: PhaseRecord) {
    r.result == Some(Ok(None))
  }

  predicate RecordSound(r: PhaseRecord) {
    && (match r.outcome
        case Passed => r.code == Some(0)
        case Failed => r.code.Some? && 1 <= r.code.value <= 3
        case Skipped => r.code.None? && r.result.None? && r.obtained.NotReached?)
    && (r.code == Some(0) <==> RanClean(r))
    && (r.code == Some(1) <==> FoundBug(r))
    && (r.code == Some(2) <==> MetOutage(r))
    && (r.code == Some(3) <==> UsageError(r))
  }

  /** The bookkeeping every prefix of a run keeps. */
  ghost predicate Kept(phases: seq<SuitePhase>, st: SuiteRun) {
    && |st.records| <= |phases|
    && (forall k :: 0 <= k < |st.records| ==> RecordSound(st.records[k]))
    && OutcomesMatch(phases, st)
    && NeedsMet(phases, st)
    && st.code == Combine(Codes(st.records))
  }

  /** The outcome table lists exactly the phases reached, under their profile names. */
  ghost predicate OutcomesMatch(phases: seq<SuitePhase>, st: SuiteRun) {
    && |st.records| <= |phases|
    && (forall k :: 0 <= k < |st.records| ==>
          phases[k].profile in st.outcomes && st.outcomes[phases[k].profile] == st.records[k].outcome)
    && (forall p :: p in st.outcomes ==> Declares(phases, |st.records|, p))
  }

  ghost predicate NeedsMet(phases: seq<SuitePhase>, st: SuiteRun) {
    && |st.records| <= |phases|
    && (forall k, d :: 0 <= k < |st.records| && st.records[k].outcome.Passed? && d in phases[k].needs ==>
          PassedBefore(phases, st, k, d))
  }

  ghost predicate PassedBefore(phases: seq<SuitePhase>, st: SuiteRun, k: nat, profile: string)
    requires k <= |phases|
  {
    exists m :: 0 <= m < k && m < |st.records| && phases[m].profile == profile && st.records[m].outcome.Passed?
  }

  /** `next` is `st` with phase `i`'s record added. */
  ghost predicate Extends(phases: seq<SuitePhase>, i: nat, st: SuiteRun, next: SuiteRun)
    requires i < |phases|
  {
    && |st.records| == i && |next.records| == i + 1 && next.records[..i] == st.records
    && var last := next.records[i];
       && RecordSound(last)
       && next.outcomes == st.outcomes[phases[i].profile := last.outcome]
       && (last.outcome.Skipped? <==> Gated(st.outcomes, phases[i]))
       && next.code == if last.code.Some? then Worse(st.code, last.code.value) else st.code
  }

  lemma TurnExtends(env: Env, phases: seq<SuitePhase>, i: nat, st: SuiteRun)
    requires i < |phases| && |st.records| == i
    ensures Extends(phases, i, st, PhaseTurn(env, phases, i, st))
  {
    hide RunPhase, Stashes;
  }

  lemma CodeKept(phases: seq<SuitePhase>, i: nat, st: SuiteRun, next: SuiteRun)
    requires i < |phases| && Extends(phases, i, st, next) && st.code == Combine(Codes(st.records))
    ensures next.code == Combine(Codes(next.records))
  {
    var last := next.records[i];
    assert Codes(next.records) == Codes(st.records) + if last.code.Some? then [last.code.value] else [];
    if last.code.Some? {
      assert Codes(next.records)[..|Codes(st.records)|] == Codes(st.records);
    } else {
      assert Codes(next.records) == Codes(st.records);
    }
  }

  lemma RecordsKept(phases: seq<SuitePhase>, i: nat, st: SuiteRun, next: SuiteRun)
    requires i < |phases| && Extends(phases, i, st, next)
    requires forall k :: 0 <= k < |st.records| ==> RecordSound(st.records[k])
    ensures |next.records| == i + 1 && forall k :: 0 <= k < |next.records| ==> RecordSound(next.records[k])
  {
    assert forall k :: 0 <= k < i ==> next.records[k] == st.records[k];
  }

  lemma OutcomesKept(phases: seq<SuitePhase>, i: nat, st: SuiteRun, next: SuiteRun)
    requires UniqueProfiles(phases) && i < |phases| && Extends(phases, i, st, next) && OutcomesMatch(phases, st)
    ensures OutcomesMatch(phases, next)
  {
    hide Gated, RecordSound;
    forall p | p in next.outcomes ensures Declares(phases, i + 1, p) {
      if p != phases[i].profile { assert Declares(phases, i, p); }
    }
    assert forall k :: 0 <= k < i ==> next.records[k] == st.records[k];
  }

  lemma NeedsKept(phases: seq<SuitePhase>, i: nat, st: SuiteRun, next: SuiteRun)
    requires i < |phases| && Extends(phases, i, st, next) && OutcomesMatch(phases, st) && NeedsMet(phases, st)
    ensures NeedsMet(phases, next)
  {
    assert forall k :: 0 <= k < i ==> next.records[k] == st.records[k];
    forall k, d | 0 <= k <= i && next.records[k].outcome.Passed? && d in phases[k].needs
      ensures PassedBefore(phases, next, k, d)
    {
      if k < i {
        assert PassedBefore(phases, st, k, d);
      } else {
        assert d in st.outcomes && st.outcomes[d].Passed?;
        assert Declares(phases, i, d);
      }
    }
  }

  lemma TurnKeeps(env: Env, phases: seq<SuitePhase>, i: nat, st: SuiteRun)
    requires UniqueProfiles(phases) && i < |phases| && |st.records| == i && Kept(phases, st)
    ensures Kept(phases, PhaseTurn(env, phases, i, st)) && |PhaseTurn(env, phases, i, st).records| == i + 1
  {
    hide PhaseTurn, OutcomesMatch, NeedsMet, Extends, RecordSound, Combine, Codes;
    var next := PhaseTurn(env, phases, i, st);
    TurnExtends(env, phases, i, st);
    RecordsKept(phases, i, st, next);
    CodeKept(phases, i, st, next);
    OutcomesKept(phases, i, st, next);
    NeedsKept(phases, i, st, next);
  }

  lemma {:induction false} RunKeeps(env: Env, phases: seq<SuitePhase>, stopOnFailure: bool, i: nat, st: SuiteRun)
    requires UniqueProfiles(phases) && i <= |phases| && |st.records| == i && Kept(phases, st)
    ensures Kept(phases, RunFrom(env, phases, stopOnFailure, i, st))
    decreases |phases| - i
  {
    hide Kept, PhaseTurn;
    if i < |phases| && !env.stopped(i) {
      TurnKeeps(env, phases, i, st);
      var next := PhaseTurn(env, phases, i, st);
      if !(stopOnFailure && next.records[|next.records| - 1].outcome.Failed?) {
        RunKeeps(env, phases, stopOnFailure, i + 1, next);
      }
    }
  }

  lemma {:induction false} PassedNeedsPassed(phases: seq<SuitePhase>, st: SuiteRun, k: nat, j: nat)
    requires UniqueProfiles(phases) && Kept(phases, st)
    requires k < |st.records| && j < |phases| && st.records[k].outcome.Passed? && NeedsPhase(phases, k, j)
    ensures j < k && st.records[j].outcome.Passed?
    decreases k
  {
    var m :| 0 <= m < k && phases[m].profile in phases[k].needs && (m == j || NeedsPhase(phases, m, j));
    assert PassedBefore(phases, st, k, phases[m].profile);
    var n :| 0 <= n < k && n < |st.records| && phases[n].profile == phases[m].profile && st.records[n].outcome.Passed?;
    assert m == n;
    if m != j { PassedNeedsPassed(phases, st, m, j); }
  }

  /**
   * Gating is transitive over whole runs: a phase that passed has every directly and indirectly
   * needed phase passed before it.
   */
  lemma GatingIsTransitive(env: Env, phases: seq<SuitePhase>, stopOnFailure: bool, k: nat, j: nat)
    requires UniqueProfiles(phases)
    requires var st := RunSuite(env, phases, stopOnFailure);
             k < |st.records| && k < |phases| && st.records[k].outcome.Passed?
    requires j < |phases| && NeedsPhase(phases, k, j)
    ensures var st := RunSuite(env, phases, stopOnFailure); j < k && st.records[j].outcome.Passed?
  {
    RunKeeps(env, phases, stopOnFailure, 0, FIRST);
    PassedNeedsPassed(phases, RunSuite(env, phases, stopOnFailure), k, j);
  }

  lemma {:induction false} CodesSound(records: seq<PhaseRecord>)
    requires forall k :: 0 <= k < |records| ==> RecordSound(records[k])
    ensures forall c :: c in Codes(records) ==> c <= 3
    ensures (forall c :: c in Codes(records) ==> c == 0)
            <==> (forall k :: 0 <= k < |records| ==> !records[k].outcome.Failed?)
  {
    if records != [] {
      var init, last := records[..|records| - 1], records[|records| - 1];
      CodesSound(init);
      var codes := Codes(init);
      assert Codes(records) == codes + if last.code.Some? then [last.code.value] else [];
      if forall c :: c in Codes(records) ==> c == 0 {
        assert forall c :: c in codes ==> c in Codes(records);
        if last.code.Some? { assert last.code.value in Codes(records); }
        forall k | 0 <= k < |records| ensures !records[k].outcome.Failed? {
          if k < |init| { assert records[k] == init[k]; }
        }
      }
      if forall k :: 0 <= k < |records| ==> !records[k].outcome.Failed? {
        assert forall k :: 0 <= k < |init| ==> init[k] == records[k];
      }
    }
  }

  /** The suite's code is the worst of the phases that ran, in any order, and 0 exactly when none failed. */
  lemma SuiteCodeIsWorst(env: Env, phases: seq<SuitePhase>, stopOnFailure: bool, shuffled: seq<nat>)
    requires UniqueProfiles(phases)
    requires multiset(shuffled) == multiset(Codes(RunSuite(env, phases, stopOnFailure).records))
    ensures var st := RunSuite(env, phases, stopOnFailure);
            && st.code == Combine(shuffled)
            && (forall c :: c in shuffled ==> SeverityRank(c) <= SeverityRank(st.code))
            && (st.code == 0 <==> forall k :: 0 <= k < |st.records| ==> !st.records[k].outcome.Failed?)
  {
    RunKeeps(env, phases, stopOnFailure, 0, FIRST);
    var st := RunSuite(env, phases, stopOnFailure);
    CodesSound(st.records);
    CombineIgnoresOrder(Codes(st.records), shuffled);
    CombineIsWorst(shuffled);
  }

  lemma {:induction false} CodesAreRecorded(records: seq<PhaseRecord>, c: nat)
    ensures c in Codes(records) <==> exists k :: 0 <= k < |records| && records[k].code == Some(c)
  {
    if records != [] {
      var init, last := records[..|records| - 1], records[|records| - 1];
      CodesAreRecorded(init, c);
      var own := if last.code.Some? then [last.code.value] else [];
      assert Codes(records) == Codes(init) + own;
      assert c in Codes(records) <==> c in Codes(init) || c in own;
      assert records == init + [last];
      if exists k :: 0 <= k < |init| && init[k].code == Some(c) {
        var k :| 0 <= k < |init| && init[k].code == Some(c);
        assert records[k].code == Some(c);
      }
      if last.code == Some(c) { assert records[|records| - 1].code == Some(c); }
      if k: nat :| k < |records| && records[k].code == Some(c) {
        assert k < |init| ==> init[k].code == Some(c);
      }
    }
  }

  /** Codes and results of the phases so far, whatever their names. */
  ghost predicate Coded(st: SuiteRun) {
    && (forall k :: 0 <= k < |st.records| ==> RecordSound(st.records[k]))
    && st.code == Combine(Codes(st.records))
  }

  lemma {:induction false} RunStaysCoded(env: Env, phases: seq<SuitePhase>, stopOnFailure: bool, i: nat, st: SuiteRun)
    requires i <= |phases| && |st.records| == i && Coded(st)
    ensures Coded(RunFrom(env, phases, stopOnFailure, i, st))
    decreases |phases| - i
  {
    hide PhaseTurn, RecordSound, Combine, Codes;
    if i < |phases| && !env.stopped(i) {
      var next := PhaseTurn(env, phases, i, st);
      TurnExtends(env, phases, i, st);
      RecordsKept(phases, i, st, next);
      CodeKept(phases, i, st, next);
      hide Extends;
      if !(stopOnFailure && next.records[|next.records| - 1].outcome.Failed?) {
        RunStaysCoded(env, phases, stopOnFailure, i + 1, next);
      }
    }
  }

  /**
   * 3 if some phase was a usage error, else 1 if some phase found a bug, else 2 if some phase met an
   * outage, else 0.
   */
  ghost predicate CodeTells(st: SuiteRun) {
    var usage := exists k :: 0 <= k < |st.records| && UsageError(st.records[k]);
    var bug := exists k :: 0 <= k < |st.records| && FoundBug(st.records[k]);
    var outage := exists k :: 0 <= k < |st.records| && MetOutage(st.records[k]);
    st.code == if usage then 3 else if bug then 1 else if outage then 2 else 0
  }

  /** Each kind of ending shows in the codes. */
  lemma EndingsShow(records: seq<PhaseRecord>)
    requires forall k :: 0 <= k < |records| ==> RecordSound(records[k])
    ensures (exists k :: 0 <= k < |records| && UsageError(records[k])) <==> 3 in Codes(records)
    ensures (exists k :: 0 <= k < |records| && FoundBug(records[k])) <==> 1 in Codes(records)
    ensures (exists k :: 0 <= k < |records| && MetOutage(records[k])) <==> 2 in Codes(records)
  {
    assert forall k :: 0 <= k < |records| ==>
      && (records[k].code == Some(3) <==> UsageError(records[k]))
      && (records[k].code == Some(1) <==> FoundBug(records[k]))
      && (records[k].code == Some(2) <==> MetOutage(records[k]));
    hide RecordSound, Codes, UsageError, FoundBug, MetOutage;
    CodesAreRecorded(records, 1);
    CodesAreRecorded(records, 2);
    CodesAreRecorded(records, 3);
  }

  /** What the exit code of a suite run says, whatever the slot held before it. */
  lemma SuiteCodeMeans(env: Env, phases: seq<SuitePhase>, stopOnFailure: bool, slot: Option<Stash>)
    ensures CodeTells(RunFrom(env, phases, stopOnFailure, 0, FIRST.(slot := slot)))
  {
    var first := FIRST.(slot := slot);
    assert Codes(first.records) == [] && Combine([]) == 0;
    RunStaysCoded(env, phases, stopOnFailure, 0, first);
    var st := RunFrom(env, phases, stopOnFailure, 0, first);
    hide RunFrom, RecordSound, Combine, Codes, UsageError, FoundBug, MetOutage;
    CodesSound(st.records);
    CombineIsSeverest(Codes(st.records));
    EndingsShow(st.records);
  }

  // ----- which phases run -----

  /**
   * A run goes on to the last phase unless a stop is requested or, when so configured, a phase fails;
   * then it ends right there.
   */
  lemma {:induction false} RunEndsWhere(env: Env, phases: seq<SuitePhase>, stopOnFailure: bool, i: nat, st: SuiteRun)
    requires i <= |phases| && |st.records| == i
    requires forall k :: 0 <= k < i ==> !env.stopped(k) && !(stopOnFailure && st.records[k].outcome.Failed?)
    ensures var fin := RunFrom(env, phases, stopOnFailure, i, st);
            var n := |fin.records|;
            && n <= |phases|
            && (forall k :: 0 <= k < n ==> !env.stopped(k))
            && (forall k :: 0 <= k < n - 1 ==> !(stopOnFailure && fin.records[k].outcome.Failed?))
            && (n < |phases| ==> env.stopped(n) || (n > 0 && stopOnFailure && fin.records[n - 1].outcome.Failed?))
    decreases |phases| - i
  {
    hide PhaseTurn;
    if i < |phases| && !env.stopped(i) {
      var next := PhaseTurn(env, phases, i, st);
      TurnExtends(env, phases, i, st);
      assert forall k :: 0 <= k < i ==> next.records[k] == st.records[k];
      hide Extends;
      if !(stopOnFailure && next.records[i].outcome.Failed?) {
        RunEndsWhere(env, phases, stopOnFailure, i + 1, next);
      }
    }
  }

  lemma SuiteEndsWhere(env: Env, phases: seq<SuitePhase>, stopOnFailure: bool)
    ensures var st := RunSuite(env, phases, stopOnFailure);
            var n := |st.records|;
            && n <= |phases|
            && (forall k :: 0 <= k < n ==> !env.stopped(k))
            && (forall k :: 0 <= k < n - 1 ==> !(stopOnFailure && st.records[k].outcome.Failed?))
            && (n < |phases| ==> env.stopped(n) || (n > 0 && stopOnFailure && st.records[n - 1].outcome.Failed?))
  {
    RunEndsWhere(env, phases, stopOnFailure, 0, FIRST);
  }

  /** Phase `k` was skipped exactly when one of its needs had not passed before it. */
  ghost predicate SkippedExactly(phases: seq<SuitePhase>, st: SuiteRun, k: nat)
    requires k < |st.records| && k < |phases|
  {
    st.records[k].outcome.Skipped? <==> exists d :: d in phases[k].needs && !PassedBefore(phases, st, k, d)
  }

  ghost predicate AllSkippedExactly(phases: seq<SuitePhase>, st: SuiteRun) {
    |st.records| <= |phases| && forall k :: 0 <= k < |st.records| ==> SkippedExactly(phases, st, k)
  }

  lemma GatedIsUnmet(phases: seq<SuitePhase>, i: nat, st: SuiteRun, next: SuiteRun, d: string)
    requires i < |phases| && Extends(phases, i, st, next) && OutcomesMatch(phases, st)
    ensures (d in st.outcomes && st.outcomes[d].Passed?) <==> PassedBefore(phases, next, i, d)
  {
    hide RecordSound, Gated;
    assert forall k :: 0 <= k < i ==> next.records[k] == st.records[k];
    if d in st.outcomes && st.outcomes[d].Passed? {
      assert Declares(phases, i, d);
      var m :| 0 <= m < i && phases[m].profile == d;
      assert next.records[m].outcome.Passed?;
    }
  }

  lemma SkippedKept(phases: seq<SuitePhase>, i: nat, st: SuiteRun, next: SuiteRun)
    requires i < |phases| && Extends(phases, i, st, next) && OutcomesMatch(phases, st) && AllSkippedExactly(phases, st)
    ensures AllSkippedExactly(phases, next)
  {
    forall k | 0 <= k <= i ensures SkippedExactly(phases, next, k) {
      if k < i {
        assert SkippedExactly(phases, st, k);
        assert forall m :: 0 <= m < i ==> next.records[m] == st.records[m];
        assert forall d :: PassedBefore(phases, next, k, d) <==> PassedBefore(phases, st, k, d);
      } else {
        forall d ensures (d in st.outcomes && st.outcomes[d].Passed?) <==> PassedBefore(phases, next, i, d) {
          GatedIsUnmet(phases, i, st, next, d);
        }
      }
    }
  }

  lemma {:induction false} RunSkipsExactly(env: Env, phases: seq<SuitePhase>, stopOnFailure: bool, i: nat, st: SuiteRun)
    requires UniqueProfiles(phases) && i <= |phases| && |st.records| == i
    requires Kept(phases, st) && AllSkippedExactly(phases, st)
    ensures AllSkippedExactly(phases, RunFrom(env, phases, stopOnFailure, i, st))
    decreases |phases| - i
  {
    hide PhaseTurn, AllSkippedExactly, OutcomesMatch, NeedsMet, Extends, RecordSound, Combine, Codes;
    if i < |phases| && !env.stopped(i) {
      var next := PhaseTurn(env, phases, i, st);
      TurnExtends(env, phases, i, st);
      TurnKeeps(env, phases, i, st);
      SkippedKept(phases, i, st, next);
      hide Kept;
      if !(stopOnFailure && next.records[|next.records| - 1].outcome.Failed?) {
        RunSkipsExactly(env, phases, stopOnFailure, i + 1, next);
      }
    }
  }

  /** Over a whole run, a phase is skipped if and only if one of its needs has not passed before it. */
  lemma SkippedIffNeedUnmet(env: Env, phases: seq<SuitePhase>, stopOnFailure: bool, k: nat)
    requires UniqueProfiles(phases) && k < |phases| && k < |RunSuite(env, phases, stopOnFailure).records|
    ensures var st := RunSuite(env, phases, stopOnFailure);
            st.records[k].outcome.Skipped? <==> exists d :: d in phases[k].needs && !PassedBefore(phases, st, k, d)
  {
    RunSkipsExactly(env, phases, stopOnFailure, 0, FIRST);
    assert SkippedExactly(phases, RunSuite(env, phases, stopOnFailure), k);
    hide RunFrom;
  }
}
