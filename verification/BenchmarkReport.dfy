/** The analyzer's reading of a benchmark report: response fingerprints and the comparison contract. */
module BenchmarkReport {
  import opened Counting
  import opened Benchmark

  datatype Case = Case(passed: bool, id: string, digest: string)

  /** The fixed part of a report; `targetFields` are the names its target carries. */
  datatype Header = Header(
    schemaVersion: string,
    suiteId: string,
    passed: bool,
    targetFields: set<string>,
    questionSha256: string,
    questionIdSha256: string,
    semanticPassed: bool)

  datatype Report = Report(header: Header, cases: seq<Case>, phases: seq<Phase>)

  const TargetFields: set<string> := {
    "question_sha256", "question_id_sha256", "expected_status", "expected_intent", "expected_product_families",
    "expected_answer_mode", "expected_fund_execution_policy", "llm_expected", "dense_expected"}

  predicate HeaderOk(h: Header) {
    && h.schemaVersion == "1.0" && h.suiteId == "deterministic-api-baseline-v1" && h.passed
    && TargetFields <= h.targetFields && ValidDigest(h.questionSha256) && ValidDigest(h.questionIdSha256)
    && h.semanticPassed
  }

  datatype Expected = Expected(name: string, kind: string, concurrency: int, controls: seq<string>)

  const BenchmarkContract: seq<Expected> := [
    Expected("warm_c1", "warm", 1, []),
    Expected("warm_c2", "warm", 2, []),
    Expected("warm_c4", "warm", 4, []),
    Expected("admission_c8", "admission_stress", 8, ["request_overloaded", "request_timeout"])]

  // ---------------------------------------------------------------- fingerprints

  function CaseKey(id: string): string { "semantic_contract:" + id }

  function PhaseKey(phase: string, outcome: string): string { "phase:" + phase + ":" + outcome }

  predicate CaseOk(c: Case) { c.passed && c.id != "" && ValidDigest(c.digest) }

  ghost function CaseKeys(cases: seq<Case>): set<string> {
    if cases == [] then {} else CaseKeys(cases[..|cases| - 1]) + {CaseKey(cases[|cases| - 1].id)}
  }

  ghost predicate CasesPrintable(cases: seq<Case>) {
    cases == [] ||
    var n := |cases| - 1;
    CasesPrintable(cases[..n]) && CaseOk(cases[n]) && CaseKey(cases[n].id) !in CaseKeys(cases[..n])
  }

  predicate OutcomePrintable(o: Outcome) {
    o.key != "" && o.count >= 1 && o.deterministic && |o.hashes| == 1 && forall h :: h in o.hashes ==> ValidDigest(h)
  }

  ghost predicate PhasePrintable(p: Phase) {
    && p.actual >= 1 && p.summary.outcomes != []
    && (forall i :: 0 <= i < |p.summary.outcomes| ==> OutcomePrintable(p.summary.outcomes[i]))
    && Total(p.summary.outcomes) == p.actual
  }

  ghost function PrintKeys(name: string, outcomes: seq<Outcome>): set<string> {
    set o | o in outcomes :: PhaseKey(name, o.key)
  }

  ghost function AllPrintKeys(phases: seq<Phase>): set<string> {
    if phases == [] then {}
    else
      var last := phases[|phases| - 1];
      AllPrintKeys(phases[..|phases| - 1]) + PrintKeys(last.name, last.summary.outcomes)
  }

  ghost function Names(phases: seq<Phase>): set<string> { set p | p in phases :: p.name }

  ghost predicate PhasesPrintable(phases: seq<Phase>) {
    phases == [] ||
    var n := |phases| - 1;
    && PhasesPrintable(phases[..n]) && PhasePrintable(phases[n])
    && phases[n].name != "" && phases[n].name !in Names(phases[..n])
    && PrintKeys(phases[n].name, phases[n].summary.outcomes) !! AllPrintKeys(phases[..n])
  }

  lemma PhaseKeyInjective(name: string, a: string, b: string)
    requires PhaseKey(name, a) == PhaseKey(name, b)
    ensures a == b
  {
    var prefix := "phase:" + name + ":";
    assert (prefix + a)[|prefix|..] == a && (prefix + b)[|prefix|..] == b;
  }

  lemma OutcomesStep(name: string, outcomes: seq<Outcome>, i: nat)
    requires DistinctKeys(outcomes) && i < |outcomes|
    ensures PhaseKey(name, outcomes[i].key) !in PrintKeys(name, outcomes[..i])
    ensures PhaseKey(name, outcomes[i].key) in PrintKeys(name, outcomes)
    ensures PrintKeys(name, outcomes[..i + 1]) == PrintKeys(name, outcomes[..i]) + {PhaseKey(name, outcomes[i].key)}
    ensures forall j :: 0 <= j < i ==> PhaseKey(name, outcomes[j].key) != PhaseKey(name, outcomes[i].key)
    ensures Total(outcomes[..i + 1]) == Total(outcomes[..i]) + outcomes[i].count
  {
    var o := outcomes[i];
    assert outcomes[..i + 1] == outcomes[..i] + [o];
    assert o in outcomes;
    forall j | 0 <= j < i ensures PhaseKey(name, outcomes[j].key) != PhaseKey(name, o.key) {
      if PhaseKey(name, outcomes[j].key) == PhaseKey(name, o.key) {
        PhaseKeyInjective(name, outcomes[j].key, o.key);
      }
    }
  }

  /** The one digest of an outcome is recorded under its key. */
  predicate Prints(fingerprints: map<string, string>, name: string, o: Outcome) {
    var key := PhaseKey(name, o.key);
    key in fingerprints && o.hashes == {fingerprints[key]}
  }

  method PrintedDigest(o: Outcome) returns (digest: string)
    requires OutcomePrintable(o)
    ensures o.hashes == {digest}
  {
    digest :| digest in o.hashes;
    assert |o.hashes - {digest}| == 0;
  }

  /** The first `i` outcomes are printable and recorded on top of `start`. */
  ghost predicate Printing(name: string, outcomes: seq<Outcome>, i: nat, start: map<string, string>,
                           fingerprints: map<string, string>)
  {
    && i <= |outcomes|
    && (forall j :: 0 <= j < i ==> OutcomePrintable(outcomes[j]) && Prints(fingerprints, name, outcomes[j]))
    && PrintKeys(name, outcomes[..i]) !! start.Keys
    && fingerprints.Keys == start.Keys + PrintKeys(name, outcomes[..i])
    && (forall k :: k in start ==> fingerprints[k] == start[k])
  }

  lemma PrintNext(name: string, outcomes: seq<Outcome>, i: nat, start: map<string, string>,
                  fingerprints: map<string, string>, digest: string)
    requires DistinctKeys(outcomes) && i < |outcomes| && Printing(name, outcomes, i, start, fingerprints)
    requires OutcomePrintable(outcomes[i]) && outcomes[i].hashes == {digest}
    requires PhaseKey(name, outcomes[i].key) !in fingerprints
    ensures Printing(name, outcomes, i + 1, start, fingerprints[PhaseKey(name, outcomes[i].key) := digest])
  {
    hide PrintKeys, DistinctKeys, OutcomePrintable, PhaseKey;
    OutcomesStep(name, outcomes, i);
    var next := fingerprints[PhaseKey(name, outcomes[i].key) := digest];
    assert Prints(next, name, outcomes[i]);
    forall j | 0 <= j < i ensures Prints(next, name, outcomes[j]) {
      assert Prints(fingerprints, name, outcomes[j]);
    }
  }

  lemma PrintBlocked(name: string, outcomes: seq<Outcome>, i: nat, start: map<string, string>,
                     fingerprints: map<string, string>)
    requires DistinctKeys(outcomes) && i < |outcomes| && Printing(name, outcomes, i, start, fingerprints)
    requires PhaseKey(name, outcomes[i].key) in fingerprints
    ensures !(PrintKeys(name, outcomes) !! start.Keys)
  {
    hide PrintKeys, DistinctKeys, OutcomePrintable, PhaseKey, Prints;
    OutcomesStep(name, outcomes, i);
  }

  method FingerprintPhase(p: Phase, start: map<string, string>) returns (r: Option<map<string, string>>)
    requires DistinctKeys(p.summary.outcomes)
    ensures r.Some? <==> PhasePrintable(p) && PrintKeys(p.name, p.summary.outcomes) !! start.Keys
    ensures r.Some? ==> r.value.Keys == start.Keys + PrintKeys(p.name, p.summary.outcomes)
    ensures r.Some? ==> forall k :: k in start ==> r.value[k] == start[k]
    ensures r.Some? ==> forall i :: 0 <= i < |p.summary.outcomes| ==> Prints(r.value, p.name, p.summary.outcomes[i])
  {
    var outcomes := p.summary.outcomes;
    if p.actual < 1 || outcomes == [] {
      return None;
    }
    var fingerprints, observed := start, 0;
    assert outcomes[..0] == [] && outcomes[..|outcomes|] == outcomes;
    for i := 0 to |outcomes|
      invariant observed == Total(outcomes[..i])
      invariant Printing(p.name, outcomes, i, start, fingerprints)
    {
      hide *;
      var o := outcomes[i];
      var key := PhaseKey(p.name, o.key);
      OutcomesStep(p.name, outcomes, i);
      if !OutcomePrintable(o) {
        Unprintable(p, i);
        return None;
      }
      if key in fingerprints {
        PrintBlocked(p.name, outcomes, i, start, fingerprints);
        return None;
      }
      var digest := PrintedDigest(o);
      PrintNext(p.name, outcomes, i, start, fingerprints, digest);
      fingerprints := fingerprints[key := digest];
      observed := observed + o.count;
    }
    hide PrintKeys, Prints, Total, OutcomePrintable, DistinctKeys;
    r := if observed != p.actual then None else Some(fingerprints);
  }

  lemma Unprintable(p: Phase, i: nat)
    requires i < |p.summary.outcomes| && !OutcomePrintable(p.summary.outcomes[i])
    ensures !PhasePrintable(p)
  {
  }

  method FingerprintCases(cases: seq<Case>) returns (r: Option<map<string, string>>)
    ensures r.Some? <==> cases != [] && CasesPrintable(cases)
    ensures r.Some? ==> r.value.Keys == CaseKeys(cases)
  {
    if cases == [] {
      return None;
    }
    var fingerprints: map<string, string> := map[];
    for i := 0 to |cases|
      invariant fingerprints.Keys == CaseKeys(cases[..i]) && CasesPrintable(cases[..i])
    {
      var c := cases[i];
      assert cases[..i + 1][..i] == cases[..i];
      if !CaseOk(c) || CaseKey(c.id) in fingerprints {
        CasesPrefix(cases, i + 1);
        return None;
      }
      fingerprints := fingerprints[CaseKey(c.id) := c.digest];
    }
    assert cases[..|cases|] == cases;
    r := Some(fingerprints);
  }

  lemma {:induction false} CasesPrefix(cases: seq<Case>, n: nat)
    requires n <= |cases|
    ensures CasesPrintable(cases) ==> CasesPrintable(cases[..n])
  {
    if n == |cases| {
      assert cases[..n] == cases;
    } else {
      var shorter := cases[..|cases| - 1];
      CasesPrefix(shorter, n);
      assert shorter[..n] == cases[..n];
    }
  }

  lemma {:induction false} PhasesPrefix(phases: seq<Phase>, n: nat)
    requires n <= |phases|
    ensures PhasesPrintable(phases) ==> PhasesPrintable(phases[..n])
  {
    if n == |phases| {
      assert phases[..n] == phases;
    } else {
      var shorter := phases[..|phases| - 1];
      PhasesPrefix(shorter, n);
      assert shorter[..n] == phases[..n];
    }
  }

  lemma {:induction false} CaseKeysStart(cases: seq<Case>)
    ensures forall key :: key in CaseKeys(cases) ==> key != "" && key[0] == 's'
  {
    if cases != [] {
      CaseKeysStart(cases[..|cases| - 1]);
    }
  }

  lemma PhasesStep(phases: seq<Phase>, i: nat)
    requires i < |phases|
    ensures var p := phases[i];
      PhasesPrintable(phases[..i + 1]) <==>
        && PhasesPrintable(phases[..i]) && PhasePrintable(p) && p.name != "" && p.name !in Names(phases[..i])
        && PrintKeys(p.name, p.summary.outcomes) !! AllPrintKeys(phases[..i])
    ensures AllPrintKeys(phases[..i + 1]) ==
      AllPrintKeys(phases[..i]) + PrintKeys(phases[i].name, phases[i].summary.outcomes)
    ensures Names(phases[..i + 1]) == Names(phases[..i]) + {phases[i].name}
    ensures PhasesPrintable(phases) ==> PhasesPrintable(phases[..i + 1])
  {
    hide PhasePrintable, PrintKeys;
    assert phases[..i + 1][..i] == phases[..i] && phases[..i + 1][i] == phases[i];
    assert phases[..i + 1] == phases[..i] + [phases[i]];
    PhasesPrefix(phases, i + 1);
  }

  lemma PrintKeysStart(name: string, outcomes: seq<Outcome>)
    ensures forall key :: key in PrintKeys(name, outcomes) ==> key != "" && key[0] == 'p'
  {
  }

  /** The analyzer fingerprints a report exactly when every case and every phase is printable, without collisions. */
  method BenchmarkFingerprints(cases: seq<Case>, phases: seq<Phase>) returns (r: Option<map<string, string>>)
    requires forall i :: 0 <= i < |phases| ==> DistinctKeys(phases[i].summary.outcomes)
    ensures r.Some? <==> cases != [] && CasesPrintable(cases) && phases != [] && PhasesPrintable(phases)
    ensures r.Some? ==> r.value.Keys == CaseKeys(cases) + AllPrintKeys(phases)
  {
    r := FingerprintCases(cases);
    if r.None? || phases == [] {
      return None;
    }
    var fingerprints := r.value;
    CaseKeysStart(cases);
    var names: set<string> := {};
    assert phases[..|phases|] == phases;
    for i := 0 to |phases|
      invariant PhasesPrintable(phases[..i]) && names == Names(phases[..i])
      invariant fingerprints.Keys == CaseKeys(cases) + AllPrintKeys(phases[..i])
    {
      hide PhasePrintable, PhasesPrintable, DistinctKeys, CaseKeys, CasesPrintable, AllPrintKeys, PrintKeys, Names;
      var p := phases[i];
      PhasesStep(phases, i);
      PrintKeysStart(p.name, p.summary.outcomes);
      if p.name == "" || p.name in names {
        return None;
      }
      names := names + {p.name};
      var printed := FingerprintPhase(p, fingerprints);
      if printed.None? {
        return None;
      }
      fingerprints := printed.value;
    }
    r := Some(fingerprints);
  }

  // ---------------------------------------------------------------- the comparison contract

  predicate PhaseMatches(p: Phase, e: Expected) {
    && p.passed && p.name == e.name && p.kind == e.kind && p.concurrency == e.concurrency && p.controls == e.controls
    && p.requested >= 1 && e.concurrency > 0 && p.actual == ActualCount(p.requested, e.concurrency)
    && p.summary.requests == p.actual && p.summary.completedHttp == p.actual && p.summary.passed == p.actual
    && p.summary.failed == 0 && p.summary.deterministic
    && p.summary.transportErrors == multiset{} && p.summary.violations == multiset{}
    && (e.controls == [] ==> p.summary.controlCodes == multiset{})
  }

  ghost predicate Comparable(report: Report) {
    && HeaderOk(report.header)
    && report.cases != [] && CasesPrintable(report.cases) && PhasesPrintable(report.phases)
    && |report.phases| == |BenchmarkContract|
    && forall i :: 0 <= i < |BenchmarkContract| ==> PhaseMatches(report.phases[i], BenchmarkContract[i])
  }

  datatype BenchmarkPhase = BenchmarkPhase(name: string, actual: int)

  datatype Contract = Contract(questionId: string, question: string, phases: seq<BenchmarkPhase>)

  /** What the analyzer takes over from a comparable report. */
  function ContractOf(report: Report): Contract {
    Contract(report.header.questionIdSha256, report.header.questionSha256,
             seq(|report.phases|, i requires 0 <= i < |report.phases| =>
               BenchmarkPhase(report.phases[i].name, report.phases[i].actual)))
  }

  method ComparisonContract(report: Report) returns (contract: Option<Contract>)
    requires forall i :: 0 <= i < |report.phases| ==> DistinctKeys(report.phases[i].summary.outcomes)
    ensures contract == if Comparable(report) then Some(ContractOf(report)) else None
  {
    var fingerprints := BenchmarkFingerprints(report.cases, report.phases);
    hide PhaseMatches, PhasesPrintable, CasesPrintable, HeaderOk;
    if !HeaderOk(report.header) || fingerprints.None? || |report.phases| != |BenchmarkContract| {
      return None;
    }
    for i := 0 to |BenchmarkContract|
      invariant forall j :: 0 <= j < i ==> PhaseMatches(report.phases[j], BenchmarkContract[j])
    {
      if !PhaseMatches(report.phases[i], BenchmarkContract[i]) {
        return None;
      }
    }
    contract := Some(ContractOf(report));
  }

  // ---------------------------------------------------------------- producer and analyzer agree

  lemma ResultWithKey(results: seq<RequestResult>, o: Outcome) returns (r: RequestResult)
    requires OutcomeOf(results, o) && o.count > 0
    ensures r in results && OutcomeKey(r) == o.key
  {
    CountExtremes(results, KeyIs(o.key));
    r :| r in results && KeyIs(o.key)(r);
  }

  lemma HashedOutcome(results: seq<RequestResult>, o: Outcome)
    requires OutcomeOf(results, o) && o.count > 0 && o.deterministic
    requires forall r :: r in results ==> Hashed(r)
    ensures OutcomePrintable(o)
  {
    var r := ResultWithKey(results, o);
    assert r.sha.value in o.hashes;
    assert |o.hashes| == 1 by {
      assert |o.hashes - {r.sha.value}| == |o.hashes| - 1;
    }
  }

  /** A produced phase whose exchanges are hashed is printable exactly when its summary is deterministic. */
  lemma ProducedPhasePrintable(spec: PhaseSpec, results: seq<RequestResult>, p: Phase)
    requires Produced(spec, results, p) && forall r :: r in results ==> Hashed(r)
    ensures PhasePrintable(p) <==> p.summary.deterministic
  {
    ActualIsLeastMultiple(spec.requested, spec.concurrency, 0);
    OutcomesPartition(results, p.summary.outcomes);
    assert p.summary.outcomes != [] by { assert HasKey(p.summary.outcomes, OutcomeKey(results[0])); }
    if p.summary.deterministic {
      forall i | 0 <= i < |p.summary.outcomes| ensures OutcomePrintable(p.summary.outcomes[i]) {
        HashedOutcome(results, p.summary.outcomes[i]);
      }
    }
  }

  ghost predicate NoControls(results: seq<RequestResult>) {
    forall r :: r in results ==> r.controlCode.None?
  }

  predicate SpecFits(spec: PhaseSpec, e: Expected) {
    && spec.name == e.name && spec.concurrency == e.concurrency
    && e.kind == (if spec.acceptControls then "admission_stress" else "warm")
    && e.controls == (if spec.acceptControls then ["request_overloaded", "request_timeout"] else [])
  }

  /**
   The analyzer's phase check agrees with the producer's verdict, except that a warm phase may carry no control
   code.
   */
  lemma ProducedPhaseMatches(spec: PhaseSpec, results: seq<RequestResult>, p: Phase, e: Expected)
    requires Produced(spec, results, p) && SpecFits(spec, e)
    ensures PhaseMatches(p, e) <==> p.passed && (spec.acceptControls || NoControls(results))
  {
    TallyEmpty(results, ControlOf);
    TallyEmpty(results, TransportOf);
    TallyEmpty(results, ViolationsOf);
    CountExtremes(results, Passed);
    CountExtremes(results, NotPassed);
    if p.passed {
      forall r | r in results ensures TransportOf(r) == [] && ViolationsOf(r) == [] {
        assert !NotPassed(r);
      }
    }
  }

  /** The phase name is recovered from a key: names hold no colon. */
  lemma PhaseKeyName(a: string, b: string, x: string, y: string)
    requires ':' !in a && ':' !in b && PhaseKey(a, x) == PhaseKey(b, y)
    ensures a == b
  {
    var left, right := a + ":" + x, b + ":" + y;
    assert left == PhaseKey(a, x)[6..] && right == PhaseKey(b, y)[6..];
    assert left[|a|] == ':' && right[|b|] == ':';
    assert forall i :: 0 <= i < |a| ==> left[i] == a[i];
    assert forall i :: 0 <= i < |b| ==> right[i] == b[i];
    assert a == left[..|a|] && b == right[..|b|];
  }

  lemma {:induction false} OtherPrintKeys(phases: seq<Phase>, name: string, outcomes: seq<Outcome>)
    requires ':' !in name && forall i :: 0 <= i < |phases| ==> ':' !in phases[i].name && phases[i].name != name
    ensures PrintKeys(name, outcomes) !! AllPrintKeys(phases)
  {
    if phases != [] {
      var last := phases[|phases| - 1];
      OtherPrintKeys(phases[..|phases| - 1], name, outcomes);
      forall o, u | o in outcomes && u in last.summary.outcomes
        ensures PhaseKey(name, o.key) != PhaseKey(last.name, u.key)
      {
        if PhaseKey(name, o.key) == PhaseKey(last.name, u.key) {
          PhaseKeyName(name, last.name, o.key, u.key);
        }
      }
    }
  }

  lemma {:induction false} DistinctNamesPrintable(phases: seq<Phase>)
    requires forall i :: 0 <= i < |phases| ==>
      PhasePrintable(phases[i]) && phases[i].name != "" && ':' !in phases[i].name
    requires forall i, j :: 0 <= i < j < |phases| ==> phases[i].name != phases[j].name
    ensures PhasesPrintable(phases)
  {
    if phases != [] {
      var n := |phases| - 1;
      DistinctNamesPrintable(phases[..n]);
      OtherPrintKeys(phases[..n], phases[n].name, phases[n].summary.outcomes);
    }
  }

  function Specs(warm: int, stress: int): seq<PhaseSpec> {
    [PhaseSpec("warm_c1", 1, warm, false), PhaseSpec("warm_c2", 2, warm, false),
     PhaseSpec("warm_c4", 4, stress, false), PhaseSpec("admission_c8", 8, stress, true)]
  }

  ghost predicate ProducedReport(report: Report, warm: int, stress: int, runs: seq<seq<RequestResult>>) {
    && |report.phases| == |runs| == |BenchmarkContract|
    && (forall i :: 0 <= i < |runs| ==> Produced(Specs(warm, stress)[i], runs[i], report.phases[i]))
    && (forall i, r :: 0 <= i < |runs| && r in runs[i] ==> Hashed(r))
  }

  /**
   A report of the producer is comparable exactly when its fixed fields and cases are in order, every phase
   passed, and no warm phase saw a control code.
   */
  lemma ProducerMeetsAnalyzer(report: Report, warm: int, stress: int, runs: seq<seq<RequestResult>>)
    requires ProducedReport(report, warm, stress, runs)
    ensures Comparable(report) <==>
      && HeaderOk(report.header) && report.cases != [] && CasesPrintable(report.cases)
      && (forall i :: 0 <= i < |runs| ==> report.phases[i].passed)
      && (forall i :: 0 <= i < 3 ==> NoControls(runs[i]))
  {
    hide PhasePrintable, PhaseMatches, CasesPrintable, PhasesPrintable, NoControls, Produced, HeaderOk;
    var specs := Specs(warm, stress);
    forall i | 0 <= i < |runs|
      ensures PhaseMatches(report.phases[i], BenchmarkContract[i]) <==>
        report.phases[i].passed && (i == 3 || NoControls(runs[i]))
    {
      ProducedPhaseMatches(specs[i], runs[i], report.phases[i], BenchmarkContract[i]);
    }
    if forall i :: 0 <= i < |runs| ==> report.phases[i].passed {
      PassedPhasesPrintable(report, warm, stress, runs);
    }
  }

  lemma PassedPhasePrintable(spec: PhaseSpec, results: seq<RequestResult>, p: Phase)
    requires Produced(spec, results, p) && (forall r :: r in results ==> Hashed(r)) && p.passed
    ensures PhasePrintable(p) && p.name == spec.name
  {
    ProducedPhasePrintable(spec, results, p);
  }

  lemma PassedPhasesPrintable(report: Report, warm: int, stress: int, runs: seq<seq<RequestResult>>)
    requires ProducedReport(report, warm, stress, runs)
    requires forall i :: 0 <= i < |runs| ==> report.phases[i].passed
    ensures PhasesPrintable(report.phases)
  {
    hide PhasePrintable, Produced, PhasesPrintable;
    var specs := Specs(warm, stress);
    forall i | 0 <= i < |runs| ensures PhasePrintable(report.phases[i]) && report.phases[i].name == specs[i].name {
      PassedPhasePrintable(specs[i], runs[i], report.phases[i]);
    }
    DistinctNamesPrintable(report.phases);
  }

  // ---------------------------------------------------------------- what is checked, spelled out

  /** The cases are printable exactly when each passed under a name of its own with a digest. */
  lemma {:induction false} CasesSpelled(cases: seq<Case>)
    ensures CasesPrintable(cases) <==>
      && (forall i :: 0 <= i < |cases| ==> cases[i].passed && cases[i].id != "" && ValidDigest(cases[i].digest))
      && forall i, j :: 0 <= i < j < |cases| ==> cases[i].id != cases[j].id
    ensures forall key :: key in CaseKeys(cases) <==> exists i :: 0 <= i < |cases| && key == CaseKey(cases[i].id)
  {
    if cases != [] {
      var n := |cases| - 1;
      CasesSpelled(cases[..n]);
      forall i | 0 <= i < n ensures CaseKey(cases[i].id) == CaseKey(cases[n].id) ==> cases[i].id == cases[n].id {
        if CaseKey(cases[i].id) == CaseKey(cases[n].id) {
          SamePrefix("semantic_contract:", cases[i].id, cases[n].id);
        }
      }
      assert forall i :: 0 <= i < n ==> cases[..n][i] == cases[i];
    }
  }

  predicate HeaderSpelled(h: Header) {
    && h.schemaVersion == "1.0" && h.suiteId == "deterministic-api-baseline-v1" && h.passed && h.semanticPassed
    && ValidDigest(h.questionSha256) && ValidDigest(h.questionIdSha256)
    && "question_sha256" in h.targetFields && "question_id_sha256" in h.targetFields
    && "expected_status" in h.targetFields && "expected_intent" in h.targetFields
    && "expected_product_families" in h.targetFields && "expected_answer_mode" in h.targetFields
    && "expected_fund_execution_policy" in h.targetFields
    && "llm_expected" in h.targetFields && "dense_expected" in h.targetFields
  }

  predicate Named(p: Phase, name: string, concurrency: int, stress: bool) {
    && p.name == name && p.concurrency == concurrency && p.requested >= 1 && p.actual >= 1
    && (p.actual - p.requested) < concurrency && p.actual >= p.requested && p.actual % concurrency == 0
    && p.kind == (if stress then "admission_stress" else "warm")
    && p.controls == (if stress then ["request_overloaded", "request_timeout"] else [])
    && (stress || p.summary.controlCodes == multiset{})
  }

  ghost predicate Clean(p: Phase) {
    && p.passed && p.summary.requests == p.actual && p.summary.completedHttp == p.actual
    && p.summary.passed == p.actual && p.summary.failed == 0 && p.summary.deterministic
    && p.summary.transportErrors == multiset{} && p.summary.violations == multiset{}
    && Total(p.summary.outcomes) == p.actual
    && forall o :: o in p.summary.outcomes ==>
         o.key != "" && o.count >= 1 && o.deterministic && exists h :: o.hashes == {h} && ValidDigest(h)
  }

  /** What makes a report comparable, spelled out. */
  lemma ComparableSpelled(report: Report)
    ensures Comparable(report) <==>
      && HeaderSpelled(report.header) && report.cases != [] && CasesPrintable(report.cases)
      && |report.phases| == 4 && FourSpelled(report.phases)
  {
    HeaderIsSpelled(report.header);
    if |report.phases| == 4 {
      FourPhases(report.phases);
    }
    hide HeaderOk, HeaderSpelled, CasesPrintable, PhasesPrintable, PhaseMatches, Clean, Named;
  }

  ghost predicate FourSpelled(phases: seq<Phase>)
    requires |phases| == 4
  {
    && (forall p :: p in phases ==> Clean(p))
    && Named(phases[0], "warm_c1", 1, false) && Named(phases[1], "warm_c2", 2, false)
    && Named(phases[2], "warm_c4", 4, false) && Named(phases[3], "admission_c8", 8, true)
  }

  ghost predicate Fits(p: Phase, i: nat)
    requires i < 4
  {
    PhasePrintable(p) && PhaseMatches(p, BenchmarkContract[i])
  }

  lemma FourFit(phases: seq<Phase>)
    requires |phases| == 4
    ensures (forall i :: 0 <= i < 4 ==> Fits(phases[i], i)) <==> FourSpelled(phases)
  {
    PhaseSpelled(phases[0], 0, "warm_c1", 1);
    PhaseSpelled(phases[1], 1, "warm_c2", 2);
    PhaseSpelled(phases[2], 2, "warm_c4", 4);
    PhaseSpelled(phases[3], 3, "admission_c8", 8);
    hide Fits, Clean, Named;
    assert (forall i :: 0 <= i < 4 ==> Fits(phases[i], i)) <==>
      Fits(phases[0], 0) && Fits(phases[1], 1) && Fits(phases[2], 2) && Fits(phases[3], 3);
    assert (forall p :: p in phases ==> Clean(p)) <==>
      Clean(phases[0]) && Clean(phases[1]) && Clean(phases[2]) && Clean(phases[3]) by {
      hide *;
      assert phases == [phases[0], phases[1], phases[2], phases[3]];
    }
  }

  lemma FourPhases(phases: seq<Phase>)
    requires |phases| == 4
    ensures PhasesPrintable(phases) && (forall i :: 0 <= i < 4 ==> PhaseMatches(phases[i], BenchmarkContract[i])) <==>
      FourSpelled(phases)
  {
    FourFit(phases);
    hide PhasesPrintable, PhasePrintable, Clean, FourSpelled;
    if PhasesPrintable(phases) {
      forall i | 0 <= i < 4 ensures PhasePrintable(phases[i]) {
        PrintableAt(phases, i);
      }
    }
    if forall i :: 0 <= i < 4 ==> Fits(phases[i], i) {
      assert Fits(phases[0], 0) && Fits(phases[1], 1) && Fits(phases[2], 2) && Fits(phases[3], 3);
      assert forall i :: 0 <= i < 4 ==> PhasePrintable(phases[i]);
      FourPrintable(phases);
    }
  }

  lemma FourPrintable(phases: seq<Phase>)
    requires |phases| == 4 && forall i :: 0 <= i < 4 ==> PhasePrintable(phases[i])
    requires phases[0].name == "warm_c1" && phases[1].name == "warm_c2"
    requires phases[2].name == "warm_c4" && phases[3].name == "admission_c8"
    ensures PhasesPrintable(phases)
  {
    hide PhasesPrintable, PhasePrintable;
    DistinctNamesPrintable(phases);
  }

  lemma HeaderIsSpelled(h: Header)
    ensures HeaderOk(h) <==> HeaderSpelled(h)
  {
    hide ValidDigest;
  }

  lemma LeastMultipleSpelled(requested: int, concurrency: int, actual: int)
    requires concurrency > 0
    ensures actual == ActualCount(requested, concurrency) <==>
      requested <= actual < requested + concurrency && actual % concurrency == 0
  {
    var waves := actual / concurrency;
    ActualIsLeastMultiple(requested, concurrency, waves);
    var c := CeilingDivide(requested, concurrency);
    assert ActualCount(requested, concurrency) == c * concurrency;
    assert (c * concurrency) % concurrency == 0 by { MultipleRemainder(c, concurrency); }
    if requested <= actual < requested + concurrency && actual % concurrency == 0 && actual != c * concurrency {
      assert actual == waves * concurrency;
      FactorsGrow(c + 1, waves, concurrency);
    }
  }

  lemma MultipleRemainder(c: int, n: int)
    requires n > 0
    ensures c * n % n == 0
  {
    var x := c * n;
    var q := x / n;
    assert x == q * n + x % n;
    if q < c {
      FactorsGrow(q + 1, c, n);
    } else if q > c {
      FactorsGrow(c + 1, q, n);
    }
  }

  lemma OutcomeSpelled(o: Outcome)
    ensures OutcomePrintable(o) <==>
      o.key != "" && o.count >= 1 && o.deterministic && exists h :: o.hashes == {h} && ValidDigest(h)
  {
    if OutcomePrintable(o) {
      OneDigest(o);
    }
  }

  lemma PhaseSpelled(p: Phase, i: nat, name: string, concurrency: int)
    requires i < 4
    requires name == BenchmarkContract[i].name && concurrency == BenchmarkContract[i].concurrency
    ensures Fits(p, i) <==> Clean(p) && Named(p, name, concurrency, i == 3)
  {
    LeastMultipleSpelled(p.requested, concurrency, p.actual);
    forall o | o in p.summary.outcomes
      ensures OutcomePrintable(o) <==>
        o.key != "" && o.count >= 1 && o.deterministic && exists h :: o.hashes == {h} && ValidDigest(h)
    {
      OutcomeSpelled(o);
    }
    hide OutcomePrintable, ValidDigest, ActualCount;
    assert (forall k :: 0 <= k < |p.summary.outcomes| ==> OutcomePrintable(p.summary.outcomes[k])) <==>
      forall o :: o in p.summary.outcomes ==> OutcomePrintable(o);
  }

  lemma OneDigest(o: Outcome)
    requires OutcomePrintable(o)
    ensures exists h :: o.hashes == {h} && ValidDigest(h)
  {
    var h :| h in o.hashes;
    assert |o.hashes - {h}| == 0;
    assert o.hashes == {h};
  }

  lemma {:induction false} PrintableAt(phases: seq<Phase>, i: nat)
    requires PhasesPrintable(phases) && i < |phases|
    ensures PhasePrintable(phases[i])
  {
    if i < |phases| - 1 {
      PrintableAt(phases[..|phases| - 1], i);
    }
  }
}
