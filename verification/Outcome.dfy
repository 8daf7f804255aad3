/** Model of `crates/harness/src/outcome.rs`: verdicts, failures and per-invariant coverage. */
module Outcome {
  import opened Prelude

  datatype Verdict = Accepted | Rejected(reason: string)

  datatype HarnessError = BugError(detail: string) | InfraError(detail: string)

  datatype CheckOutcome = Held | Skipped(reason: string) | Violated(detail: string)

  datatype FailureKind = Bug(detail: string) | Invariant(name: string, detail: string) | Infra(detail: string)

  function KindOf(error: HarnessError): FailureKind {
    match error
    case BugError(detail) => Bug(detail)
    case InfraError(detail) => Infra(detail)
  }

  /** When two failures count as the same one for shrinking. */
  predicate SameFailure(a: FailureKind, b: FailureKind) {
    match (a, b)
    case (Bug(d1), Bug(d2)) => d1 == d2
    case (Infra(_), Infra(_)) => true
    case (Invariant(n1, _), Invariant(n2, _)) => n1 == n2
    case _ => false
  }

  // ----- sums over tables -----

  function At(m: map<string, nat>, key: string): nat {
    if key in m then m[key] else 0
  }

  ghost function SumValues(m: map<string, nat>): nat
    decreases |m|
  {
    if m == map[] then 0
    else
      var key :| key in m;
      m[key] + SumValues(m - {key})
  }

  lemma {:induction false} SumRemove(m: map<string, nat>, key: string)
    ensures SumValues(m) == At(m, key) + SumValues(m - {key})
    decreases |m|
  {
    if key !in m {
      assert m - {key} == m;
    } else {
      var first :| first in m && SumValues(m) == m[first] + SumValues(m - {first});
      if first != key {
        SumRemove(m - {first}, key);
        SumRemove(m - {key}, first);
        assert m - {first} - {key} == m - {key} - {first};
      }
    }
  }

  lemma {:induction false} SumDependsOnEntriesOnly(a: map<string, nat>, b: map<string, nat>)
    requires forall key :: At(a, key) == At(b, key)
    ensures SumValues(a) == SumValues(b)
    decreases a.Keys + b.Keys
  {
    if a.Keys + b.Keys != {} {
      var key :| key in a.Keys + b.Keys;
      SumRemove(a, key);
      SumRemove(b, key);
      var a', b' := a - {key}, b - {key};
      forall k ensures At(a', k) == At(b', k) {
        assert At(a, k) == At(b, k);
      }
      assert key !in a'.Keys + b'.Keys;
      SumDependsOnEntriesOnly(a', b');
    } else {
      assert a.Keys == {} && b.Keys == {};
    }
  }

  // ----- coverage -----

  datatype InvCoverage = InvCoverage(held: nat, skipped: nat, violated: nat) {
    function Total(): nat { held + skipped + violated }

    /** The tally with one more check that ended in `outcome`. */
    function Counting(outcome: CheckOutcome): InvCoverage {
      match outcome
      case Held => this.(held := held + 1)
      case Skipped(_) => this.(skipped := skipped + 1)
      case Violated(_) => this.(violated := violated + 1)
    }
  }

  const ZERO := InvCoverage(0, 0, 0)

  /** The tallies by invariant name, and every skip reason in the order it was recorded. */
  datatype Coverage = Coverage(tallies: map<string, InvCoverage>, reasons: map<string, seq<string>>) {

    function Entry(name: string): InvCoverage {
      if name in tallies then tallies[name] else ZERO
    }

    function Reasons(name: string): seq<string> {
      if name in reasons then reasons[name] else []
    }

    /** The coverage after one more check of `name` ended in `outcome`. */
    function Record(name: string, outcome: CheckOutcome): Coverage {
      Coverage(tallies[name := Entry(name).Counting(outcome)],
               if outcome.Skipped? then reasons[name := Reasons(name) + [outcome.reason]] else reasons)
    }

    ghost function TotalSkipped(): nat {
      SumValues(map name | name in tallies :: tallies[name].skipped)
    }

    ghost function TotalReasons(): nat {
      SumValues(map name | name in reasons :: |reasons[name]|)
    }

    /** Every skip left exactly one reason behind. */
    ghost predicate SkipsExplained() {
      forall name :: |Reasons(name)| == Entry(name).skipped
    }
  }

  function Seed(names: seq<string>): Coverage {
    Coverage(map name | name in names :: ZERO, map[])
  }

  lemma SeedIsZero(names: seq<string>, name: string)
    ensures Seed(names).Entry(name) == ZERO && Seed(names).Reasons(name) == []
  {
  }

  lemma RecordEntry(c: Coverage, checked: string, outcome: CheckOutcome, name: string)
    ensures c.Record(checked, outcome).Entry(name)
         == if checked == name then c.Entry(name).Counting(outcome) else c.Entry(name)
    ensures c.Record(checked, outcome).Reasons(name)
         == if checked == name && outcome.Skipped? then c.Reasons(name) + [outcome.reason] else c.Reasons(name)
    ensures var before, after := c.Entry(checked), c.Record(checked, outcome).Entry(checked);
            match outcome
            case Held => after == InvCoverage(before.held + 1, before.skipped, before.violated)
            case Skipped(_) => after == InvCoverage(before.held, before.skipped + 1, before.violated)
            case Violated(_) => after == InvCoverage(before.held, before.skipped, before.violated + 1)
  {
    if checked != name {
      assert name in c.Record(checked, outcome).tallies <==> name in c.tallies;
    }
  }

  lemma RecordKeepsSkipsExplained(c: Coverage, name: string, outcome: CheckOutcome)
    requires c.SkipsExplained()
    ensures c.Record(name, outcome).SkipsExplained()
  {
    var d := c.Record(name, outcome);
    forall n ensures |d.Reasons(n)| == d.Entry(n).skipped {
      RecordEntry(c, name, outcome, n);
      assert |c.Reasons(n)| == c.Entry(n).skipped;
    }
  }

  /** The report's skip count is also the number of reasons kept. */
  lemma SkipCountIsReasonCount(c: Coverage)
    requires c.SkipsExplained()
    ensures c.TotalSkipped() == c.TotalReasons()
  {
    var skips: map<string, nat> := map name | name in c.tallies :: c.tallies[name].skipped;
    var kept: map<string, nat> := map name | name in c.reasons :: |c.reasons[name]|;
    forall n ensures At(skips, n) == At(kept, n) {
      assert |c.Reasons(n)| == c.Entry(n).skipped;
    }
    SumDependsOnEntriesOnly(skips, kept);
  }

  /** The tally table a driver updates in place while it runs. */
  class CoverageRecorder {
    var tallies: map<string, InvCoverage>
    var reasons: map<string, seq<string>>

    constructor (names: seq<string>)
      ensures Value() == Seed(names)
    {
      tallies := map name | name in names :: ZERO;
      reasons := map[];
    }

    function Value(): Coverage
      reads this
    {
      Coverage(tallies, reasons)
    }

    method RecordHeld(name: string)
      modifies this
      ensures Value() == old(Value()).Record(name, Held)
    {
      var e := Value().Entry(name);
      tallies := tallies[name := e.(held := e.held + 1)];
    }

    method RecordSkipped(name: string, why: string)
      modifies this
      ensures Value() == old(Value()).Record(name, Skipped(why))
    {
      var e := Value().Entry(name);
      tallies := tallies[name := e.(skipped := e.skipped + 1)];
      reasons := reasons[name := Value().Reasons(name) + [why]];
    }

    method RecordViolated(name: string)
      modifies this
      ensures Value() == old(Value()).Record(name, Violated(""))
    {
      var e := Value().Entry(name);
      tallies := tallies[name := e.(violated := e.violated + 1)];
    }

    method TotalSkipped() returns (total: nat)
      ensures total == Value().TotalSkipped()
    {
      ghost var skips: map<string, nat> := map name | name in tallies :: tallies[name].skipped;
      ghost var left := skips;
      total := 0;
      var rest := tallies.Keys;
      while rest != {}
        invariant rest <= tallies.Keys && left.Keys == rest
        invariant forall name :: name in rest ==> left[name] == skips[name]
        invariant total + SumValues(left) == SumValues(skips)
        decreases rest
      {
        var name :| name in rest;
        SumRemove(left, name);
        left := left - {name};
        total := total + tallies[name].skipped;
        rest := rest - {name};
      }
      assert left == map[];
    }
  }
}
