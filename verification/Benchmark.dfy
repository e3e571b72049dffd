/**
 The benchmark that measures an API in phases, the analyzer that reads its report back, and their agreement.
 Request outcomes come from the environment; latencies and sizes are not part of this model.
 */
module Benchmark {
  import opened Counting

  const SafeControls: set<string> := {"request_overloaded", "request_timeout"}

  predicate ValidDigest(text: string) {
    |text| == 64 && forall i :: 0 <= i < |text| ==> '0' <= text[i] <= '9' || 'a' <= text[i] <= 'f'
  }

  // ---------------------------------------------------------------- the producer: one phase

  datatype RequestResult = RequestResult(
    sha: Option<string>,
    status: Option<string>,
    controlCode: Option<string>,
    contractViolations: seq<string>,
    semanticViolations: seq<string>,
    transportError: Option<string>)

  predicate Passed(r: RequestResult) {
    r.transportError.None? && r.contractViolations == [] && r.semanticViolations == []
  }

  predicate NotPassed(r: RequestResult) { !Passed(r) }

  /** Every exchange that reached the server carries the digest of its body. */
  predicate Hashed(r: RequestResult) {
    r.transportError.None? ==> r.sha.Some? && ValidDigest(r.sha.value)
  }

  function OutcomeKey(r: RequestResult): string {
    if r.transportError.Some? then "transport:" + r.transportError.value
    else if r.controlCode.Some? && r.controlCode.value in SafeControls then "control:" + r.controlCode.value
    else "status:" + (if r.status.GetOr("") == "" then "unknown" else r.status.value)
  }

  datatype Outcome = Outcome(key: string, count: nat, hashes: set<string>, deterministic: bool)

  datatype Summary = Summary(
    requests: nat,
    completedHttp: int,
    passed: nat,
    failed: nat,
    controlCodes: multiset<string>,
    transportErrors: multiset<string>,
    violations: multiset<string>,
    outcomes: seq<Outcome>,
    deterministic: bool)

  function KeyIs(key: string): RequestResult -> bool { (r: RequestResult) => OutcomeKey(r) == key }

  ghost function KeyIn(keys: set<string>): RequestResult -> bool { (r: RequestResult) => OutcomeKey(r) in keys }

  function ControlOf(r: RequestResult): seq<string> { if r.controlCode.Some? then [r.controlCode.value] else [] }

  function TransportOf(r: RequestResult): seq<string> {
    if r.transportError.Some? then [r.transportError.value] else []
  }

  function ViolationsOf(r: RequestResult): seq<string> { r.contractViolations + r.semanticViolations }

  /** A counter over the labels each result contributes. */
  ghost function Tally(results: seq<RequestResult>, labels: RequestResult -> seq<string>): multiset<string> {
    if results == [] then multiset{}
    else Tally(results[..|results| - 1], labels) + multiset(labels(results[|results| - 1]))
  }

  ghost predicate OutcomeOf(results: seq<RequestResult>, o: Outcome) {
    && o.count == Count(results, KeyIs(o.key))
    && (forall h :: h in o.hashes <==> exists r :: r in results && OutcomeKey(r) == o.key && r.sha == Some(h))
    && (o.deterministic <==>
          |o.hashes| <= 1 && forall r :: r in results && OutcomeKey(r) == o.key ==> r.transportError.None?)
  }

  ghost predicate DistinctKeys(outcomes: seq<Outcome>) {
    forall i, j :: 0 <= i < j < |outcomes| ==> outcomes[i].key != outcomes[j].key
  }

  ghost predicate HasKey(outcomes: seq<Outcome>, key: string) {
    exists i :: 0 <= i < |outcomes| && outcomes[i].key == key
  }

  ghost predicate OutcomesOf(results: seq<RequestResult>, outcomes: seq<Outcome>) {
    && DistinctKeys(outcomes)
    && (forall i :: 0 <= i < |outcomes| ==> OutcomeOf(results, outcomes[i]) && outcomes[i].count > 0)
    && (forall r :: r in results ==> HasKey(outcomes, OutcomeKey(r)))
  }

  ghost predicate SummaryOf(results: seq<RequestResult>, s: Summary) {
    && s.requests == |results|
    && s.completedHttp == |results| - |s.transportErrors|
    && s.passed == Count(results, Passed) && s.failed == Count(results, NotPassed)
    && s.controlCodes == Tally(results, ControlOf)
    && s.transportErrors == Tally(results, TransportOf)
    && s.violations == Tally(results, ViolationsOf)
    && OutcomesOf(results, s.outcomes)
    && (s.deterministic <==> forall i :: 0 <= i < |s.outcomes| ==> s.outcomes[i].deterministic)
  }

  function Chosen(results: seq<RequestResult>, key: string): seq<RequestResult> {
    if results == [] then []
    else
      var last := results[|results| - 1];
      Chosen(results[..|results| - 1], key) + (if OutcomeKey(last) == key then [last] else [])
  }

  lemma {:induction false} ChosenElements(results: seq<RequestResult>, key: string)
    ensures forall r :: r in Chosen(results, key) <==> r in results && OutcomeKey(r) == key
    ensures |Chosen(results, key)| == Count(results, KeyIs(key))
  {
    if results != [] {
      var n := |results| - 1;
      ChosenElements(results[..n], key);
      hide OutcomeKey;
      assert results == results[..n] + [results[n]];
    }
  }

  method SelectOutcome(results: seq<RequestResult>, key: string) returns (o: Outcome)
    ensures o.key == key && OutcomeOf(results, o) && o.count == Count(results, KeyIs(key))
  {
    var selected: seq<RequestResult> := [];
    assert results[..|results|] == results;
    for i := 0 to |results|
      invariant selected == Chosen(results[..i], key)
    {
      assert results[..i + 1][..i] == results[..i];
      if OutcomeKey(results[i]) == key {
        selected := selected + [results[i]];
      }
    }
    ChosenElements(results, key);
    hide Count, OutcomeKey, Chosen;
    var hashes := set r | r in selected && r.sha.Some? :: r.sha.value;
    o := Outcome(key, |selected|, hashes, |hashes| <= 1 && forall r :: r in selected ==> r.transportError.None?);
  }

  lemma KeyAppended(outcomes: seq<Outcome>, o: Outcome, key: string)
    ensures HasKey(outcomes + [o], key) <==> HasKey(outcomes, key) || o.key == key
  {
    var extended := outcomes + [o];
    assert extended[|outcomes|] == o;
    if i :| 0 <= i < |outcomes| && outcomes[i].key == key {
      assert extended[i].key == key;
    }
  }

  lemma KeyCounted(results: seq<RequestResult>, key: string)
    requires KeyPresent(results, key)
    ensures Count(results, KeyIs(key)) > 0
  {
    var r :| r in results && OutcomeKey(r) == key;
    var i :| 0 <= i < |results| && results[i] == r;
    CountPositive(results, i, KeyIs(key));
  }

  ghost predicate KeyPresent(results: seq<RequestResult>, key: string) {
    exists r :: r in results && OutcomeKey(r) == key
  }

  /** The keys outside `rest` are summarized, each once. */
  ghost predicate Collected(results: seq<RequestResult>, outcomes: seq<Outcome>, rest: set<string>) {
    && DistinctKeys(outcomes)
    && (forall key :: key in rest ==> KeyPresent(results, key))
    && (forall r :: r in results ==> OutcomeKey(r) in rest || HasKey(outcomes, OutcomeKey(r)))
    && (forall i :: 0 <= i < |outcomes| ==>
          OutcomeOf(results, outcomes[i]) && outcomes[i].count > 0 && outcomes[i].key !in rest)
  }

  lemma CollectNext(results: seq<RequestResult>, outcomes: seq<Outcome>, rest: set<string>, o: Outcome)
    requires Collected(results, outcomes, rest) && o.key in rest && OutcomeOf(results, o)
    requires o.count == Count(results, KeyIs(o.key))
    ensures Collected(results, outcomes + [o], rest - {o.key})
  {
    KeyCounted(results, o.key);
    hide OutcomeOf, OutcomeKey, Count, HasKey, KeyPresent;
    var next := outcomes + [o];
    forall i | 0 <= i < |next|
      ensures OutcomeOf(results, next[i]) && next[i].count > 0 && next[i].key !in rest - {o.key}
      ensures forall j :: 0 <= j < i ==> next[j].key != next[i].key
    {
      assert i < |outcomes| ==> next[i] == outcomes[i];
    }
    forall r | r in results ensures OutcomeKey(r) in rest - {o.key} || HasKey(outcomes + [o], OutcomeKey(r)) {
      KeyAppended(outcomes, o, OutcomeKey(r));
    }
  }

  method CollectOutcomes(results: seq<RequestResult>) returns (outcomes: seq<Outcome>)
    ensures OutcomesOf(results, outcomes)
  {
    var rest := set r | r in results :: OutcomeKey(r);
    outcomes := [];
    assert forall key :: key in rest ==> KeyPresent(results, key);
    while rest != {}
      invariant Collected(results, outcomes, rest)
      decreases rest
    {
      hide *;
      var key :| key in rest;
      var o := SelectOutcome(results, key);
      CollectNext(results, outcomes, rest, o);
      outcomes := outcomes + [o];
      rest := rest - {key};
    }
    hide OutcomeOf, OutcomeKey, HasKey;
  }

  lemma TallyNext(results: seq<RequestResult>, i: nat, labels: RequestResult -> seq<string>)
    requires i < |results|
    ensures Tally(results[..i + 1], labels) == Tally(results[..i], labels) + multiset(labels(results[i]))
  {
    assert results[..i + 1][..i] == results[..i];
  }

  lemma CountNext(results: seq<RequestResult>, i: nat, p: RequestResult -> bool)
    requires i < |results|
    ensures Count(results[..i + 1], p) == Count(results[..i], p) + (if p(results[i]) then 1 else 0)
  {
    assert results[..i + 1][..i] == results[..i];
  }

  method Summarize(results: seq<RequestResult>) returns (s: Summary)
    ensures SummaryOf(results, s)
  {
    var passed, failed: nat := 0, 0;
    var controls, transports, violations: multiset<string> := multiset{}, multiset{}, multiset{};
    assert results[..|results|] == results;
    for i := 0 to |results|
      invariant passed == Count(results[..i], Passed) && failed == Count(results[..i], NotPassed)
      invariant controls == Tally(results[..i], ControlOf)
      invariant transports == Tally(results[..i], TransportOf)
      invariant violations == Tally(results[..i], ViolationsOf)
    {
      hide Count, Tally, ControlOf, TransportOf, ViolationsOf;
      var r := results[i];
      CountNext(results, i, Passed);
      CountNext(results, i, NotPassed);
      TallyNext(results, i, ControlOf);
      TallyNext(results, i, TransportOf);
      TallyNext(results, i, ViolationsOf);
      if Passed(r) {
        passed := passed + 1;
      } else {
        failed := failed + 1;
      }
      controls := controls + multiset(ControlOf(r));
      transports := transports + multiset(TransportOf(r));
      violations := violations + multiset(ViolationsOf(r));
    }
    var outcomes := CollectOutcomes(results);
    hide Count, Tally, OutcomesOf, ControlOf, TransportOf, ViolationsOf;
    s := Summary(|results|, |results| - |transports|, passed, failed, controls, transports, violations, outcomes,
                 forall i :: 0 <= i < |outcomes| ==> outcomes[i].deterministic);
  }

  // ---------------------------------------------------------------- counting

  lemma {:induction false} CountExtremes(results: seq<RequestResult>, p: RequestResult -> bool)
    ensures Count(results, p) <= |results|
    ensures Count(results, p) == 0 <==> forall r :: r in results ==> !p(r)
    ensures Count(results, p) == |results| <==> forall r :: r in results ==> p(r)
  {
    if results != [] {
      var n := |results| - 1;
      CountExtremes(results[..n], p);
      assert results == results[..n] + [results[n]];
    }
  }

  lemma {:induction false} TallyEmpty(results: seq<RequestResult>, labels: RequestResult -> seq<string>)
    ensures Tally(results, labels) == multiset{} <==> forall r :: r in results ==> labels(r) == []
  {
    if results != [] {
      var n := |results| - 1;
      TallyEmpty(results[..n], labels);
      assert results == results[..n] + [results[n]];
      var last := labels(results[n]);
      if last != [] {
        assert last[0] in multiset(last);
        assert last[0] in Tally(results, labels);
      }
    }
  }

  function Total(outcomes: seq<Outcome>): nat {
    if outcomes == [] then 0 else Total(outcomes[..|outcomes| - 1]) + outcomes[|outcomes| - 1].count
  }

  lemma {:induction false} CountOneMoreKey(results: seq<RequestResult>, keys: set<string>, key: string)
    requires key !in keys
    ensures Count(results, KeyIn(keys + {key})) == Count(results, KeyIn(keys)) + Count(results, KeyIs(key))
  {
    if results != [] {
      CountOneMoreKey(results[..|results| - 1], keys, key);
    }
  }

  ghost function KeysOf(outcomes: seq<Outcome>): set<string> { set o | o in outcomes :: o.key }

  lemma {:induction false} TotalCountsKeys(results: seq<RequestResult>, outcomes: seq<Outcome>)
    requires DistinctKeys(outcomes)
    requires forall i :: 0 <= i < |outcomes| ==> outcomes[i].count == Count(results, KeyIs(outcomes[i].key))
    ensures Total(outcomes) == Count(results, KeyIn(KeysOf(outcomes)))
  {
    if outcomes == [] {
      CountExtremes(results, KeyIn(KeysOf(outcomes)));
    } else {
      var n := |outcomes| - 1;
      TotalCountsKeys(results, outcomes[..n]);
      assert outcomes == outcomes[..n] + [outcomes[n]];
      assert KeysOf(outcomes) == KeysOf(outcomes[..n]) + {outcomes[n].key};
      CountOneMoreKey(results, KeysOf(outcomes[..n]), outcomes[n].key);
    }
  }

  /** The outcome counts partition the requests: each request is counted under exactly one outcome. */
  lemma OutcomesPartition(results: seq<RequestResult>, outcomes: seq<Outcome>)
    requires OutcomesOf(results, outcomes)
    ensures Total(outcomes) == |results|
  {
    TotalCountsKeys(results, outcomes);
    CountExtremes(results, KeyIn(KeysOf(outcomes)));
    forall r | r in results ensures KeyIn(KeysOf(outcomes))(r) {
      var i :| 0 <= i < |outcomes| && outcomes[i].key == OutcomeKey(r);
      assert outcomes[i] in outcomes;
    }
  }

  // ---------------------------------------------------------------- waves

  datatype PhaseSpec = PhaseSpec(name: string, concurrency: int, requested: int, acceptControls: bool)

  function CeilingDivide(a: int, b: int): int
    requires b > 0
  {
    -((-a) / b)
  }

  function ActualCount(requested: int, concurrency: int): int
    requires concurrency > 0
  {
    CeilingDivide(requested, concurrency) * concurrency
  }

  lemma FactorsGrow(a: int, b: int, c: int)
    requires c > 0 && a <= b
    ensures a * c <= b * c
  {
    assert (b - a) * c >= 0;
  }

  lemma SmallerFactor(a: int, b: int, c: int)
    requires c > 0 && a * c < b * c
    ensures a < b
  {
    if b <= a {
      FactorsGrow(b, a, c);
    }
  }

  /** The number of requests sent is the least multiple of the concurrency that reaches the requested count. */
  lemma ActualIsLeastMultiple(requested: int, concurrency: int, waves: int)
    requires concurrency > 0
    ensures requested <= ActualCount(requested, concurrency) < requested + concurrency
    ensures requested <= waves * concurrency ==> ActualCount(requested, concurrency) <= waves * concurrency
  {
    var c := CeilingDivide(requested, concurrency);
    assert -requested == (-requested) / concurrency * concurrency + (-requested) % concurrency;
    assert c * concurrency == -((-requested) / concurrency * concurrency);
    assert (c - 1) * concurrency == c * concurrency - concurrency;
    if requested <= waves * concurrency {
      SmallerFactor(c - 1, waves, concurrency);
      FactorsGrow(c, waves, concurrency);
    }
  }

  datatype Phase = Phase(
    name: string,
    kind: string,
    concurrency: int,
    requested: int,
    actual: int,
    controls: seq<string>,
    summary: Summary,
    passed: bool)

  ghost predicate Produced(spec: PhaseSpec, results: seq<RequestResult>, phase: Phase) {
    && spec.concurrency > 0 && spec.requested >= 1
    && phase.name == spec.name && phase.concurrency == spec.concurrency && phase.requested == spec.requested
    && phase.kind == (if spec.acceptControls then "admission_stress" else "warm")
    && phase.controls == (if spec.acceptControls then ["request_overloaded", "request_timeout"] else [])
    && phase.actual == ActualCount(spec.requested, spec.concurrency) == |results|
    && SummaryOf(results, phase.summary)
    && phase.passed == (phase.summary.failed == 0 && phase.summary.deterministic)
  }

  /** `respond(i)` is the environment's answer to the i-th request of the phase. */
  method RunPhase(spec: PhaseSpec, respond: nat -> RequestResult) returns (phase: Phase, results: seq<RequestResult>)
    requires spec.concurrency > 0 && spec.requested >= 1
    ensures Produced(spec, results, phase)
    ensures forall i :: 0 <= i < |results| ==> results[i] == respond(i)
  {
    ActualIsLeastMultiple(spec.requested, spec.concurrency, 0);
    var actual := ActualCount(spec.requested, spec.concurrency);
    var waves := CeilingDivide(spec.requested, spec.concurrency);
    SmallerFactor(0, waves, spec.concurrency);
    results := [];
    for wave := 0 to waves
      invariant |results| == wave * spec.concurrency
      invariant forall i :: 0 <= i < |results| ==> results[i] == respond(i)
    {
      ghost var start := |results|;
      for slot := 0 to spec.concurrency
        invariant |results| == start + slot
        invariant forall i :: 0 <= i < |results| ==> results[i] == respond(i)
      {
        results := results + [respond(|results|)];
      }
    }
    var summary := Summarize(results);
    phase := Phase(spec.name, if spec.acceptControls then "admission_stress" else "warm", spec.concurrency,
                   spec.requested, actual,
                   if spec.acceptControls then ["request_overloaded", "request_timeout"] else [],
                   summary, summary.failed == 0 && summary.deterministic);
  }

  // ---------------------------------------------------------------- outcome keys

  predicate Controlled(r: RequestResult) {
    r.controlCode == Some("request_overloaded") || r.controlCode == Some("request_timeout")
  }

  function StatusLabel(r: RequestResult): string {
    if r.status.None? || r.status.value == "" then "unknown" else r.status.value
  }

  lemma SamePrefix(prefix: string, a: string, b: string)
    requires prefix + a == prefix + b
    ensures a == b
  {
    assert (prefix + a)[|prefix|..] == a && (prefix + b)[|prefix|..] == b;
  }

  /** Two results share an outcome exactly when they failed, were controlled, or ended in the same way. */
  lemma OutcomesSeparate(r: RequestResult, u: RequestResult)
    ensures OutcomeKey(r) == OutcomeKey(u) <==>
      if r.transportError.Some? then u.transportError == r.transportError
      else if u.transportError.Some? then false
      else if Controlled(r) then u.controlCode == r.controlCode
      else !Controlled(u) && StatusLabel(r) == StatusLabel(u)
  {
    var a, b := OutcomeKey(r), OutcomeKey(u);
    assert a[0] == (if r.transportError.Some? then 't' else if Controlled(r) then 'c' else 's');
    assert b[0] == (if u.transportError.Some? then 't' else if Controlled(u) then 'c' else 's');
    if a == b {
      if r.transportError.Some? {
        SamePrefix("transport:", r.transportError.value, u.transportError.value);
      } else if Controlled(r) {
        SamePrefix("control:", r.controlCode.value, u.controlCode.value);
      } else {
        SamePrefix("status:", StatusLabel(r), StatusLabel(u));
      }
    }
  }

  /** A digest is 64 lower-case hexadecimal digits. */
  lemma DigestPattern(text: string)
    ensures ValidDigest(text) <==>
      |text| == 64 && forall i :: 0 <= i < |text| ==>
        text[i] in {'0', '1', '2', '3', '4', '5', '6', '7', '8', '9', 'a', 'b', 'c', 'd', 'e', 'f'}
  {
  }

  lemma {:induction false} TallyMembers(results: seq<RequestResult>, labels: RequestResult -> seq<string>, x: string)
    ensures x in Tally(results, labels) <==> exists r :: r in results && x in labels(r)
  {
    if results != [] {
      var n := |results| - 1;
      TallyMembers(results[..n], labels, x);
      assert results == results[..n] + [results[n]];
    }
  }

  /** What a summary tells about its results, result by result. */
  lemma SummarySpelled(results: seq<RequestResult>, s: Summary, x: string)
    requires SummaryOf(results, s)
    ensures s.passed + s.failed == s.requests == |results|
    ensures s.passed == s.requests <==>
      forall r :: r in results ==> r.transportError.None? && r.contractViolations + r.semanticViolations == []
    ensures s.failed == s.requests <==>
      forall r :: r in results ==> r.transportError.Some? || r.contractViolations + r.semanticViolations != []
    ensures s.completedHttp == s.requests <==> forall r :: r in results ==> r.transportError.None?
    ensures x in s.transportErrors <==> exists r :: r in results && r.transportError == Some(x)
    ensures x in s.controlCodes <==> exists r :: r in results && r.controlCode == Some(x)
    ensures x in s.violations <==> exists r :: r in results && x in r.contractViolations + r.semanticViolations
  {
    PassedSpelled(results);
    LabelsSpelled(results, x);
    hide Count, Tally, OutcomesOf, ControlOf, TransportOf, ViolationsOf;
    assert |s.transportErrors| == 0 <==> s.transportErrors == multiset{};
  }

  lemma PassedSpelled(results: seq<RequestResult>)
    ensures Count(results, Passed) + Count(results, NotPassed) == |results|
    ensures Count(results, Passed) == |results| <==>
      forall r :: r in results ==> r.transportError.None? && r.contractViolations + r.semanticViolations == []
    ensures Count(results, NotPassed) == |results| <==>
      forall r :: r in results ==> r.transportError.Some? || r.contractViolations + r.semanticViolations != []
  {
    CountExtremes(results, Passed);
    CountExtremes(results, NotPassed);
    PassedOrNot(results);
    hide Count;
  }

  lemma LabelsSpelled(results: seq<RequestResult>, x: string)
    ensures Tally(results, TransportOf) == multiset{} <==> forall r :: r in results ==> r.transportError.None?
    ensures x in Tally(results, TransportOf) <==> exists r :: r in results && r.transportError == Some(x)
    ensures x in Tally(results, ControlOf) <==> exists r :: r in results && r.controlCode == Some(x)
    ensures x in Tally(results, ViolationsOf) <==>
      exists r :: r in results && x in r.contractViolations + r.semanticViolations
  {
    TallyEmpty(results, TransportOf);
    TallyMembers(results, TransportOf, x);
    TallyMembers(results, ControlOf, x);
    TallyMembers(results, ViolationsOf, x);
    hide Tally;
    assert forall r: RequestResult :: x in TransportOf(r) <==> r.transportError == Some(x);
    assert forall r: RequestResult :: x in ControlOf(r) <==> r.controlCode == Some(x);
  }

  lemma {:induction false} PassedOrNot(results: seq<RequestResult>)
    ensures Count(results, Passed) + Count(results, NotPassed) == |results|
  {
    if results != [] {
      PassedOrNot(results[..|results| - 1]);
    }
  }
}
