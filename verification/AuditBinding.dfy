/** Binding the audited phases to the benchmark report they were recorded under. */
module AuditBinding {
  import opened Counting
  import opened Benchmark
  import opened BenchmarkReport
  import opened PhaseSlices

  datatype Mismatch =
    | ContractIncomplete
    | WarmPhasesMissing
    | OrderMismatch
    | NotInBenchmark
    | CountMismatch
    | OffsetMismatch
    | PhaseRequestMismatch
    | AuditRequestMismatch
    | AuditQuestionMismatch

  datatype Selection = Selection(phase: PhaseSlice, invocations: seq<Invocation>)

  datatype Binding = Binding(passed: bool, selected: nat, matched: nat, mismatches: set<Mismatch>)

  const RequiredWarm: set<string> := {"warm_c1", "warm_c2", "warm_c4"}

  function SelectedNames(selections: seq<Selection>): seq<string> {
    seq(|selections|, i requires 0 <= i < |selections| => selections[i].phase.name)
  }

  /** The contract's names that were selected, in contract order. */
  function ExpectedOrder(phases: seq<BenchmarkPhase>, selected: seq<string>): seq<string> {
    if phases == [] then []
    else (if phases[0].name in selected then [phases[0].name] else []) + ExpectedOrder(phases[1..], selected)
  }

  /** Invocations that precede the i-th phase of the contract. */
  function Offset(phases: seq<BenchmarkPhase>, i: nat): int
    requires i <= |phases|
  {
    if i == 0 then 0 else Offset(phases, i - 1) + phases[i - 1].actual
  }

  predicate AsksRequest(v: Invocation, id: string) { v.events != [] && FinalEvent(v.events).requestId == id }

  predicate AsksQuestion(v: Invocation, question: string) {
    v.events != [] && FinalEvent(v.events).question == question
  }

  ghost predicate Bound(s: Selection, contract: Contract, i: nat)
    requires i < |contract.phases|
  {
    && s.phase.name == contract.phases[i].name
    && s.phase.count == contract.phases[i].actual
    && s.phase.skip == Offset(contract.phases, i)
    && s.phase.requestId == contract.questionId
    && forall v :: v in s.invocations ==> AsksRequest(v, contract.questionId) && AsksQuestion(v, contract.question)
  }

  /** The selections are the first phases of the contract: all three warm ones, and possibly the fourth. */
  ghost predicate BoundPrefix(selections: seq<Selection>, contract: Contract) {
    && 3 <= |selections| <= |contract.phases|
    && forall i :: 0 <= i < |selections| ==> Bound(selections[i], contract, i)
  }

  /** One selection's mismatch codes, given the contract's counts and offsets by name. */
  function Mismatches(s: Selection, contract: Contract, actuals: map<string, int>, offsets: map<string, int>)
    : set<Mismatch>
    requires actuals.Keys == offsets.Keys
  {
    if s.phase.name !in actuals then {NotInBenchmark}
    else
      (if actuals[s.phase.name] != s.phase.count then {CountMismatch} else {})
      + (if offsets[s.phase.name] != s.phase.skip then {OffsetMismatch} else {})
      + (if s.phase.requestId != contract.questionId then {PhaseRequestMismatch} else {})
      + (if exists v :: v in s.invocations && !AsksRequest(v, contract.questionId) then {AuditRequestMismatch} else {})
      + (if exists v :: v in s.invocations && !AsksQuestion(v, contract.question) then {AuditQuestionMismatch} else {})
  }

  ghost predicate ContractNames(phases: seq<BenchmarkPhase>) {
    |phases| == 4 && phases[0].name == "warm_c1" && phases[1].name == "warm_c2" && phases[2].name == "warm_c4"
    && phases[3].name == "admission_c8"
  }

  ghost predicate DistinctPhaseNames(phases: seq<BenchmarkPhase>) {
    forall i, j :: 0 <= i < j < |phases| ==> phases[i].name != phases[j].name
  }

  ghost predicate Recorded(phases: seq<BenchmarkPhase>, i: nat, actuals: map<string, int>, offsets: map<string, int>)
    requires i < |phases|
  {
    && phases[i].name in actuals && phases[i].name in offsets
    && actuals[phases[i].name] == phases[i].actual && offsets[phases[i].name] == Offset(phases, i)
  }

  lemma ComparableNames(report: Report)
    requires Comparable(report)
    ensures ContractNames(ContractOf(report).phases) && DistinctPhaseNames(ContractOf(report).phases)
    ensures forall i :: 0 <= i < 4 ==> ContractOf(report).phases[i].actual >= 1
  {
    hide PhasesPrintable, CasesPrintable, HeaderOk;
    forall i | 0 <= i < 4 ensures report.phases[i].name == BenchmarkContract[i].name && report.phases[i].actual >= 1 {
      assert PhaseMatches(report.phases[i], BenchmarkContract[i]);
      ActualIsLeastMultiple(report.phases[i].requested, BenchmarkContract[i].concurrency, 0);
    }
  }

  ghost predicate NamePrefix(names: seq<string>, phases: seq<BenchmarkPhase>) {
    3 <= |names| <= |phases| && forall i :: 0 <= i < |names| ==> names[i] == phases[i].name
  }

  /** Containing the warm names and following contract order means being a prefix of the contract. */
  lemma OrderedNamesArePrefix(names: seq<string>, phases: seq<BenchmarkPhase>)
    requires ContractNames(phases)
    ensures (forall name :: name in RequiredWarm ==> name in names) && names == ExpectedOrder(phases, names) <==>
      NamePrefix(names, phases)
  {
    assert phases[1..][0] == phases[1] && phases[1..][1..] == phases[2..] && phases[2..][1..] == phases[3..];
    assert phases[2..][0] == phases[2] && phases[3..][0] == phases[3] && phases[3..][1..] == [];
    assert ExpectedOrder([], names) == [];
    var tail := if phases[3].name in names then [phases[3].name] else [];
    assert ExpectedOrder(phases[3..], names) == tail;
    assert ExpectedOrder(phases[2..], names) == (if phases[2].name in names then ["warm_c4"] else []) + tail;
    assert ExpectedOrder(phases[1..], names) ==
      (if phases[1].name in names then ["warm_c2"] else []) + ExpectedOrder(phases[2..], names);
    assert ExpectedOrder(phases, names) ==
      (if phases[0].name in names then ["warm_c1"] else []) + ExpectedOrder(phases[1..], names);
    if NamePrefix(names, phases) {
      assert names[0] == "warm_c1" && names[1] == "warm_c2" && names[2] == "warm_c4";
      if |names| == 3 {
        assert "admission_c8" !in names;
      } else {
        assert names[3] == "admission_c8";
      }
      assert names == ["warm_c1", "warm_c2", "warm_c4"] + tail;
    }
  }

  ghost predicate Tabulated(phases: seq<BenchmarkPhase>, actuals: map<string, int>, offsets: map<string, int>) {
    && actuals.Keys == offsets.Keys == (set p | p in phases :: p.name)
    && forall i :: 0 <= i < |phases| ==> Recorded(phases, i, actuals, offsets)
  }

  lemma NoMismatchMeansBound(s: Selection, contract: Contract, i: nat, actuals: map<string, int>,
                             offsets: map<string, int>)
    requires i < |contract.phases| && Tabulated(contract.phases, actuals, offsets)
    requires s.phase.name == contract.phases[i].name
    ensures Mismatches(s, contract, actuals, offsets) == {} <==> Bound(s, contract, i)
  {
    assert Recorded(contract.phases, i, actuals, offsets);
  }

  method Tabulate(phases: seq<BenchmarkPhase>) returns (actuals: map<string, int>, offsets: map<string, int>)
    requires DistinctPhaseNames(phases)
    ensures Tabulated(phases, actuals, offsets)
  {
    actuals, offsets := map[], map[];
    var offset := 0;
    assert phases[..|phases|] == phases;
    for i := 0 to |phases|
      invariant offset == Offset(phases, i)
      invariant actuals.Keys == set p | p in phases[..i] :: p.name
      invariant offsets.Keys == set p | p in phases[..i] :: p.name
      invariant forall j :: 0 <= j < i ==> Recorded(phases, j, actuals, offsets)
    {
      assert phases[..i + 1] == phases[..i] + [phases[i]];
      var nextActuals := actuals[phases[i].name := phases[i].actual];
      var nextOffsets := offsets[phases[i].name := offset];
      RecordedKept(phases, i, actuals, offsets, nextActuals, nextOffsets);
      actuals, offsets := nextActuals, nextOffsets;
      offset := offset + phases[i].actual;
    }
  }

  lemma RecordedKept(phases: seq<BenchmarkPhase>, i: nat, actuals: map<string, int>, offsets: map<string, int>,
                     nextActuals: map<string, int>, nextOffsets: map<string, int>)
    requires DistinctPhaseNames(phases) && i < |phases|
    requires nextActuals == actuals[phases[i].name := phases[i].actual]
    requires nextOffsets == offsets[phases[i].name := Offset(phases, i)]
    requires forall j :: 0 <= j < i ==> Recorded(phases, j, actuals, offsets)
    ensures forall j :: 0 <= j < i + 1 ==> Recorded(phases, j, nextActuals, nextOffsets)
  {
    hide Offset;
    forall j | 0 <= j < i ensures Recorded(phases, j, nextActuals, nextOffsets) {
      assert Recorded(phases, j, actuals, offsets);
    }
  }

  method OrderMismatches(names: seq<string>, phases: seq<BenchmarkPhase>) returns (codes: set<Mismatch>)
    requires ContractNames(phases)
    ensures codes == {} <==> NamePrefix(names, phases)
  {
    OrderedNamesArePrefix(names, phases);
    hide *;
    codes := {};
    if exists name :: name in RequiredWarm && name !in names {
      codes := codes + {WarmPhasesMissing};
      assert WarmPhasesMissing in codes;
    }
    if names != ExpectedOrder(phases, names) {
      codes := codes + {OrderMismatch};
      assert OrderMismatch in codes;
    }
  }

  /** A binding passes exactly when the report is comparable and the selections are a bound prefix of its phases. */
  method BindAudit(report: Report, selections: seq<Selection>) returns (b: Binding)
    requires forall i :: 0 <= i < |report.phases| ==> DistinctKeys(report.phases[i].summary.outcomes)
    ensures b.passed <==> Comparable(report) && BoundPrefix(selections, ContractOf(report))
    ensures b.selected == |selections|
    ensures b.passed ==> b.matched == |selections|
    ensures b.passed <==> b.mismatches == {} && selections != []
  {
    hide *;
    var found := ComparisonContract(report);
    if found.None? {
      return Binding(false, |selections|, 0, {ContractIncomplete});
    }
    ComparableNames(report);
    var contract := found.value;
    var actuals, offsets := Tabulate(contract.phases);
    var names := SelectedNames(selections);
    var codes := OrderMismatches(names, contract.phases);
    ghost var orderCodes := codes;
    var matched := 0;
    CleanStart(selections, contract, actuals, offsets);
    for i := 0 to |selections|
      invariant 0 <= matched <= i
      invariant codes == {} <==> orderCodes == {} && Clean(selections[..i], contract, actuals, offsets)
      invariant codes == {} ==> matched == i
    {
      CleanNext(selections, i, contract, actuals, offsets);
      var wrong := Mismatches(selections[i], contract, actuals, offsets);
      codes := codes + wrong;
      if wrong == {} {
        matched := matched + 1;
      }
    }
    CleanPrefix(selections, contract, actuals, offsets);
    b := Binding(codes == {} && selections != [], |selections|, matched, codes);
  }

  lemma CleanStart(selections: seq<Selection>, contract: Contract, actuals: map<string, int>, offsets: map<string, int>)
    requires Tabulated(contract.phases, actuals, offsets)
    ensures actuals.Keys == offsets.Keys && Clean(selections[..0], contract, actuals, offsets)
    ensures selections[..|selections|] == selections
  {
  }

  ghost predicate Clean(selections: seq<Selection>, contract: Contract, actuals: map<string, int>,
                        offsets: map<string, int>)
    requires actuals.Keys == offsets.Keys
  {
    forall i :: 0 <= i < |selections| ==> Mismatches(selections[i], contract, actuals, offsets) == {}
  }

  lemma CleanNext(selections: seq<Selection>, i: nat, contract: Contract, actuals: map<string, int>,
                  offsets: map<string, int>)
    requires actuals.Keys == offsets.Keys && i < |selections|
    ensures Clean(selections[..i + 1], contract, actuals, offsets) <==>
      Clean(selections[..i], contract, actuals, offsets) && Mismatches(selections[i], contract, actuals, offsets) == {}
  {
    hide Mismatches;
    assert selections[..i + 1] == selections[..i] + [selections[i]];
    assert forall j :: 0 <= j < i ==> selections[..i + 1][j] == selections[..i][j];
    assert selections[..i + 1][i] == selections[i];
  }

  lemma CleanPrefix(selections: seq<Selection>, contract: Contract, actuals: map<string, int>,
                    offsets: map<string, int>)
    requires actuals.Keys == offsets.Keys && Tabulated(contract.phases, actuals, offsets)
    ensures BoundPrefix(selections, contract) ==> selections != []
    ensures NamePrefix(SelectedNames(selections), contract.phases) && Clean(selections, contract, actuals, offsets) <==>
      BoundPrefix(selections, contract)
  {
    hide Tabulated, Mismatches, Bound;
    var names := SelectedNames(selections);
    if NamePrefix(names, contract.phases) {
      forall i | 0 <= i < |selections|
        ensures Mismatches(selections[i], contract, actuals, offsets) == {} <==> Bound(selections[i], contract, i)
      {
        assert names[i] == contract.phases[i].name;
        NoMismatchMeansBound(selections[i], contract, i, actuals, offsets);
      }
    } else if BoundPrefix(selections, contract) {
      BoundNames(selections, contract);
    }
  }

  lemma BoundNames(selections: seq<Selection>, contract: Contract)
    requires BoundPrefix(selections, contract)
    ensures NamePrefix(SelectedNames(selections), contract.phases)
  {
    assert forall i :: 0 <= i < |selections| ==> Bound(selections[i], contract, i);
  }

  function Slices(selections: seq<Selection>): seq<PhaseSlice> {
    seq(|selections|, i requires 0 <= i < |selections| => selections[i].phase)
  }

  lemma {:induction false} OffsetIsCountSum(selections: seq<Selection>, contract: Contract, i: nat)
    requires BoundPrefix(selections, contract) && i <= |selections|
    ensures CountSum(Slices(selections)[..i]) == Offset(contract.phases, i)
  {
    if i > 0 {
      OffsetIsCountSum(selections, contract, i - 1);
      var phases := Slices(selections);
      assert phases[..i][..i - 1] == phases[..i - 1];
      assert Bound(selections[i - 1], contract, i - 1);
    }
  }

  /**
   A passing binding means the selected phases tile the request's invocations from the first one on: what they
   select together is one gap-free prefix.
   */
  lemma PassingBindingIsGapFree(report: Report, selections: seq<Selection>, invocations: seq<Invocation>)
    requires Comparable(report) && BoundPrefix(selections, ContractOf(report))
    requires forall i :: 0 <= i < |selections| ==> ValidSlice(selections[i].phase)
    requires SelectAll(invocations, Slices(selections)).Success?
    ensures Tiles(Slices(selections), report.header.questionIdSha256)
    ensures
      var total, matching := CountSum(Slices(selections)), Matching(invocations, report.header.questionIdSha256);
      0 <= total <= |matching| && SelectAll(invocations, Slices(selections)) == Success(matching[..total])
  {
    var contract := ContractOf(report);
    var phases := Slices(selections);
    forall i | 0 <= i < |phases|
      ensures phases[i].requestId == report.header.questionIdSha256 && phases[i].count >= 1
      ensures phases[i].skip == CountSum(phases[..i])
    {
      assert Bound(selections[i], contract, i);
      assert ValidSlice(selections[i].phase);
      OffsetIsCountSum(selections, contract, i);
    }
    TilesSelectPrefix(invocations, phases, report.header.questionIdSha256);
  }

  ghost predicate BoundTo(report: Report, selections: seq<Selection>, i: nat)
    requires i < |selections| && |selections| <= |report.phases|
  {
    var s := selections[i];
    && s.phase.name == report.phases[i].name && s.phase.count == report.phases[i].actual
    && s.phase.skip == (if i == 0 then 0 else selections[i - 1].phase.skip + report.phases[i - 1].actual)
    && s.phase.requestId == report.header.questionIdSha256
    && forall v :: v in s.invocations ==>
         && v.events != [] && FinalEvent(v.events).requestId == report.header.questionIdSha256
         && FinalEvent(v.events).question == report.header.questionSha256
  }

  /** What a binding checks, spelled out over the report. */
  lemma BoundSpelled(report: Report, selections: seq<Selection>)
    ensures BoundPrefix(selections, ContractOf(report)) <==>
      && 3 <= |selections| <= |report.phases|
      && forall i :: 0 <= i < |selections| ==> BoundTo(report, selections, i)
  {
    var contract := ContractOf(report);
    if 3 <= |selections| <= |report.phases| {
      if BoundPrefix(selections, contract) {
        forall i | 0 <= i < |selections| ensures BoundTo(report, selections, i) {
          assert Bound(selections[i], contract, i);
          if i > 0 {
            assert Bound(selections[i - 1], contract, i - 1);
          }
        }
      }
      if forall i :: 0 <= i < |selections| ==> BoundTo(report, selections, i) {
        forall i | 0 <= i < |selections| ensures Bound(selections[i], contract, i) {
          BoundSkip(report, selections, i);
        }
      }
    }
  }

  lemma {:induction false} BoundSkip(report: Report, selections: seq<Selection>, i: nat)
    requires i < |selections| <= |report.phases|
    requires forall j :: 0 <= j < |selections| ==> BoundTo(report, selections, j)
    ensures Bound(selections[i], ContractOf(report), i)
  {
    assert BoundTo(report, selections, i);
    if i > 0 {
      BoundSkip(report, selections, i - 1);
    }
  }
}
