/** Slicing the audited invocations of one request into the phases of a benchmark. */
module PhaseSlices {
  import opened Counting
  import opened Sorting
  import opened Partitioning
  import opened Benchmark
  import opened BenchmarkReport

  datatype PhaseSlice = PhaseSlice(name: string, requestId: string, skip: int, count: int)

  datatype PhaseError = NoPhases | InvalidValues | DuplicateName | Overlap | NotNameCount | CountNotPositive | TooFew

  predicate NameStart(c: char) { 'a' <= c <= 'z' || '0' <= c <= '9' }

  predicate NameChar(c: char) { NameStart(c) || c == '_' || c == '-' }

  predicate ValidName(name: string) {
    1 <= |name| <= 64 && NameStart(name[0]) && forall i :: 0 <= i < |name| ==> NameChar(name[i])
  }

  /** A phase name is 1 to 64 lower-case letters, digits, underscores and dashes, the first a letter or digit. */
  lemma NamePattern(name: string)
    ensures ValidName(name) <==>
      && name != "" && |name| <= 64 && name[0] != '_' && name[0] != '-'
      && forall i :: 0 <= i < |name| ==>
           name[i] in {'a', 'b', 'c', 'd', 'e', 'f', 'g', 'h', 'i', 'j', 'k', 'l', 'm', 'n', 'o', 'p',
                       'q', 'r', 's', 't', 'u', 'v', 'w', 'x', 'y', 'z', '0', '1', '2', '3', '4', '5',
                       '6', '7', '8', '9', '_', '-'}
  {
  }

  predicate ValidSlice(p: PhaseSlice) {
    ValidName(p.name) && ValidDigest(p.requestId) && p.skip >= 0 && p.count >= 1
  }

  function End(p: PhaseSlice): int { p.skip + p.count }

  predicate Apart(p: PhaseSlice, q: PhaseSlice) { End(p) <= q.skip || End(q) <= p.skip }

  ghost predicate Named(phases: seq<PhaseSlice>) {
    && (forall i :: 0 <= i < |phases| ==> ValidSlice(phases[i]))
    && forall i, j :: 0 <= i < j < |phases| ==> phases[i].name != phases[j].name
  }

  ghost predicate RangesDisjoint(phases: seq<PhaseSlice>) {
    forall i, j :: 0 <= i < j < |phases| && phases[i].requestId == phases[j].requestId ==> Apart(phases[i], phases[j])
  }

  /** What an accepted list of slices is. */
  ghost predicate Acceptable(phases: seq<PhaseSlice>) {
    phases != [] && Named(phases) && RangesDisjoint(phases)
  }

  // ---------------------------------------------------------------- overlap within one request

  function Skip(p: PhaseSlice): real { p.skip as real }

  function Group(phases: seq<PhaseSlice>, id: string): seq<PhaseSlice> {
    if phases == [] then []
    else
      var last := phases[|phases| - 1];
      Group(phases[..|phases| - 1], id) + (if last.requestId == id then [last] else [])
  }

  ghost predicate GroupApart(group: seq<PhaseSlice>) {
    forall p, q :: p in group && q in group && p != q ==> Apart(p, q)
  }

  lemma {:induction false} GroupElements(phases: seq<PhaseSlice>, id: string)
    ensures forall p :: p in Group(phases, id) <==> p in phases && p.requestId == id
    ensures Named(phases) ==> Distinct(Group(phases, id))
  {
    if phases != [] {
      var n := |phases| - 1;
      GroupElements(phases[..n], id);
      assert phases == phases[..n] + [phases[n]];
      if Named(phases) {
        assert Named(phases[..n]);
        assert phases[n] !in phases[..n];
      }
    }
  }

  lemma {:induction false} ChainReaches(ordered: seq<PhaseSlice>, i: nat, j: nat)
    requires i < j < |ordered| && forall k :: 0 <= k < |ordered| ==> ordered[k].count >= 1
    requires forall k :: 0 < k < |ordered| ==> End(ordered[k - 1]) <= ordered[k].skip
    ensures End(ordered[i]) <= ordered[j].skip
  {
    if i < j - 1 {
      ChainReaches(ordered, i, j - 1);
    }
  }

  ghost predicate Chained(ordered: seq<PhaseSlice>) {
    forall k :: 0 < k < |ordered| ==> End(ordered[k - 1]) <= ordered[k].skip
  }

  lemma ChainedNext(ordered: seq<PhaseSlice>, i: nat)
    requires i < |ordered| && Chained(ordered[..i])
    ensures Chained(ordered[..i + 1]) <==> i == 0 || End(ordered[i - 1]) <= ordered[i].skip
    ensures Chained(ordered) ==> Chained(ordered[..i + 1])
    ensures Chained([])
  {
    var init, more := ordered[..i], ordered[..i + 1];
    assert forall k :: 0 <= k < i ==> more[k] == init[k] == ordered[k];
    if Chained(more) && i > 0 {
      assert End(more[i - 1]) <= more[i].skip;
    }
  }

  lemma ChainedIsApart(ordered: seq<PhaseSlice>)
    requires Chained(ordered) && forall k :: 0 <= k < |ordered| ==> ordered[k].count >= 1
    ensures GroupApart(ordered)
  {
    forall p, q | p in ordered && q in ordered && p != q ensures Apart(p, q) {
      var i :| 0 <= i < |ordered| && ordered[i] == p;
      var j :| 0 <= j < |ordered| && ordered[j] == q;
      if i < j {
        ChainReaches(ordered, i, j);
      } else {
        ChainReaches(ordered, j, i);
      }
    }
  }

  lemma ApartIsChained(ordered: seq<PhaseSlice>)
    requires Distinct(ordered) && Ordered(ordered, Skip) && GroupApart(ordered)
    requires forall k :: 0 <= k < |ordered| ==> ordered[k].count >= 1
    ensures Chained(ordered)
  {
    forall k | 0 < k < |ordered| ensures End(ordered[k - 1]) <= ordered[k].skip {
      var p, q := ordered[k - 1], ordered[k];
      assert Skip(p) <= Skip(q) && p != q;
      assert p in ordered && q in ordered;
      assert Apart(p, q);
    }
  }

  /** Comparing neighbours of the sorted group decides whether any two of its slices overlap. */
  lemma NeighboursDecide(group: seq<PhaseSlice>)
    requires Distinct(group) && forall p :: p in group ==> p.count >= 1
    ensures Chained(SortBy(group, Skip)) <==> GroupApart(group)
    ensures forall p :: p in SortBy(group, Skip) <==> p in group
  {
    hide SortBy, Chained;
    var ordered := SortBy(group, Skip);
    SortBySorts(group, Skip);
    SameElements(ordered, group);
    DistinctRearranged(group, ordered);
    assert forall k :: 0 <= k < |ordered| ==> ordered[k] in ordered;
    if Chained(ordered) {
      ChainedIsApart(ordered);
    }
    if GroupApart(group) {
      ApartIsChained(ordered);
    }
  }

  lemma GroupsApartDisjoint(phases: seq<PhaseSlice>)
    requires forall p :: p in phases ==> GroupApart(Group(phases, p.requestId))
    requires forall i, j :: 0 <= i < j < |phases| ==> phases[i] != phases[j]
    ensures RangesDisjoint(phases)
  {
    forall i, j | 0 <= i < j < |phases| && phases[i].requestId == phases[j].requestId
      ensures Apart(phases[i], phases[j])
    {
      var p, q := phases[i], phases[j];
      GroupElements(phases, p.requestId);
      hide Group, Apart;
      assert p in phases && q in phases;
    }
  }

  lemma DisjointGroupsApart(phases: seq<PhaseSlice>, id: string)
    requires RangesDisjoint(phases)
    ensures GroupApart(Group(phases, id))
  {
    GroupElements(phases, id);
    var group := Group(phases, id);
    hide Group;
    forall p, q | p in group && q in group && p != q ensures Apart(p, q) {
      var i :| 0 <= i < |phases| && phases[i] == p;
      var j :| 0 <= j < |phases| && phases[j] == q;
    }
  }

  lemma GroupsDecide(phases: seq<PhaseSlice>)
    requires Named(phases)
    ensures RangesDisjoint(phases) <==> forall p :: p in phases ==> GroupApart(Group(phases, p.requestId))
  {
    hide GroupApart, Group;
    if forall p :: p in phases ==> GroupApart(Group(phases, p.requestId)) {
      GroupsApartDisjoint(phases);
    }
    if RangesDisjoint(phases) {
      forall p | p in phases ensures GroupApart(Group(phases, p.requestId)) {
        DisjointGroupsApart(phases, p.requestId);
      }
    }
  }

  lemma SkipsAreNatural(group: seq<PhaseSlice>, ordered: seq<PhaseSlice>)
    requires forall p :: p in ordered <==> p in group
    requires forall p :: p in group ==> p.skip >= 0 && p.count >= 1
    ensures forall i :: 0 <= i < |ordered| ==> ordered[i].skip >= 0
  {
    assert forall i :: 0 <= i < |ordered| ==> ordered[i] in ordered;
  }

  method ScanGroup(group: seq<PhaseSlice>) returns (ok: bool)
    requires Distinct(group) && forall p :: p in group ==> p.skip >= 0 && p.count >= 1
    ensures ok == GroupApart(group)
  {
    var ordered := SortBy(group, Skip);
    NeighboursDecide(group);
    SkipsAreNatural(group, ordered);
    hide *;
    var previousEnd := -1;
    for i := 0 to |ordered|
      invariant previousEnd == if i == 0 then -1 else End(ordered[i - 1])
      invariant Chained(ordered[..i])
    {
      ChainedNext(ordered, i);
      if ordered[i].skip < previousEnd {
        return false;
      }
      previousEnd := End(ordered[i]);
    }
    assert ordered[..|ordered|] == ordered;
    return true;
  }

  // ---------------------------------------------------------------- validation

  /** The slice at which the list stops being valid and uniquely named. */
  ghost predicate FirstFault(phases: seq<PhaseSlice>, k: nat, error: PhaseError) {
    && k < |phases| && Named(phases[..k]) && !Named(phases[..k + 1])
    && error == if ValidSlice(phases[k]) then DuplicateName else InvalidValues
  }

  method GroupByRequest(phases: seq<PhaseSlice>) returns (r: Result<map<string, seq<PhaseSlice>>, PhaseError>)
    ensures r.Success? <==> Named(phases)
    ensures r.Success? ==> r.value.Keys == (set p | p in phases :: p.requestId)
    ensures r.Success? ==> forall id :: id in r.value ==> r.value[id] == Group(phases, id)
    ensures r.Failure? ==> exists k :: FirstFault(phases, k, r.error)
  {
    var groups: map<string, seq<PhaseSlice>> := map[];
    var names: set<string> := {};
    assert phases[..|phases|] == phases;
    for i := 0 to |phases|
      invariant Named(phases[..i])
      invariant names == set p | p in phases[..i] :: p.name
      invariant groups.Keys == set p | p in phases[..i] :: p.requestId
      invariant forall id :: id in groups ==> groups[id] == Group(phases[..i], id)
    {
      var p := phases[i];
      GroupNext(phases, i, groups);
      NamedNext(phases, i);
      assert phases[..i + 1] == phases[..i] + [p];
      if !ValidSlice(p) || p.name in names {
        r := Failure(if ValidSlice(p) then DuplicateName else InvalidValues);
        assert FirstFault(phases, i, r.error);
        return;
      }
      names := names + {p.name};
      groups := Grouped(groups, p);
    }
    r := Success(groups);
  }

  function Grouped(groups: map<string, seq<PhaseSlice>>, p: PhaseSlice): map<string, seq<PhaseSlice>> {
    groups[p.requestId := (if p.requestId in groups then groups[p.requestId] else []) + [p]]
  }

  lemma NamedNext(phases: seq<PhaseSlice>, i: nat)
    requires i < |phases| && Named(phases[..i])
    ensures Named(phases[..i + 1]) <==>
      ValidSlice(phases[i]) && forall p :: p in phases[..i] ==> p.name != phases[i].name
    ensures Named(phases) ==> Named(phases[..i + 1])
  {
    var init, more := phases[..i], phases[..i + 1];
    if Named(more) {
      forall p | p in init ensures p.name != phases[i].name {
        var k :| 0 <= k < i && init[k] == p;
        assert more[k] == p && more[i] == phases[i];
      }
      assert more[i] == phases[i];
    }
    if ValidSlice(phases[i]) && forall p :: p in init ==> p.name != phases[i].name {
      assert forall k :: 0 <= k < i ==> more[k] == init[k];
    }
  }

  lemma GroupNext(phases: seq<PhaseSlice>, i: nat, groups: map<string, seq<PhaseSlice>>)
    requires i < |phases| && groups.Keys == set p | p in phases[..i] :: p.requestId
    requires forall id :: id in groups ==> groups[id] == Group(phases[..i], id)
    ensures var next := Grouped(groups, phases[i]);
      && next.Keys == (set p | p in phases[..i + 1] :: p.requestId)
      && forall id :: id in next ==> next[id] == Group(phases[..i + 1], id)
  {
    var p := phases[i];
    assert phases[..i + 1] == phases[..i] + [p] && phases[..i + 1][..i] == phases[..i];
    GroupElements(phases[..i], p.requestId);
    if Group(phases[..i], p.requestId) != [] {
      assert Group(phases[..i], p.requestId)[0] in phases[..i];
    }
  }

  /** Slices are accepted exactly when they are valid, uniquely named, and disjoint within each request. */
  method ValidatePhaseSlices(phases: seq<PhaseSlice>) returns (r: Result<seq<PhaseSlice>, PhaseError>)
    ensures r.Success? <==> Acceptable(phases)
    ensures r.Success? ==> r.value == phases
    ensures r == Failure(NoPhases) <==> phases == []
    ensures r == Failure(Overlap) <==> phases != [] && Named(phases) && !RangesDisjoint(phases)
    ensures r.Failure? && phases != [] && !Named(phases) ==> exists k :: FirstFault(phases, k, r.error)
  {
    hide Named, RangesDisjoint, GroupApart, Group, ValidSlice, Distinct, Apart;
    if phases == [] {
      return Failure(NoPhases);
    }
    var grouped := GroupByRequest(phases);
    if grouped.Failure? {
      return Failure(grouped.error);
    }
    var groups := grouped.value;
    GroupsDecide(phases);
    SlicesInRange(phases);
    var rest := groups.Keys;
    while rest != {}
      invariant rest <= groups.Keys
      invariant forall id :: id in groups.Keys - rest ==> GroupApart(Group(phases, id))
      decreases rest
    {
      var id :| id in rest;
      GroupElements(phases, id);
      var ok := ScanGroup(groups[id]);
      if !ok {
        assert exists p :: p in phases && p.requestId == id;
        return Failure(Overlap);
      }
      rest := rest - {id};
    }
    r := Success(phases);
  }

  lemma SlicesInRange(phases: seq<PhaseSlice>)
    requires Named(phases)
    ensures forall p :: p in phases ==> p.skip >= 0 && p.count >= 1
  {
    forall p | p in phases ensures p.skip >= 0 && p.count >= 1 {
      var i :| 0 <= i < |phases| && phases[i] == p;
      assert ValidSlice(phases[i]);
    }
  }

  // ---------------------------------------------------------------- selection

  datatype Stage = RequestStage | AnswerStage | OtherStage

  datatype AuditEvent = AuditEvent(stage: Stage, requestId: string, question: string, observedAt: real)

  datatype Invocation = Invocation(id: string, events: seq<AuditEvent>)

  function OfStage(events: seq<AuditEvent>, stage: Stage): seq<AuditEvent> {
    if events == [] then [] else (if events[0].stage == stage then [events[0]] else []) + OfStage(events[1..], stage)
  }

  function Last(events: seq<AuditEvent>): AuditEvent
    requires events != []
  {
    events[|events| - 1]
  }

  /** The event that names an invocation's request: its last request event, else answer event, else event. */
  function FinalEvent(events: seq<AuditEvent>): AuditEvent
    requires events != []
  {
    var requests, answers := OfStage(events, RequestStage), OfStage(events, AnswerStage);
    if requests != [] then Last(requests) else if answers != [] then Last(answers) else Last(events)
  }

  function StartedAt(events: seq<AuditEvent>): real
    requires events != []
  {
    if |events| == 1 || events[0].observedAt <= StartedAt(events[1..]) then events[0].observedAt
    else StartedAt(events[1..])
  }

  function Started(invocation: Invocation): real {
    if invocation.events == [] then 0.0 else StartedAt(invocation.events)
  }

  predicate RequestedBy(invocation: Invocation, id: string) {
    invocation.events != [] && FinalEvent(invocation.events).requestId == id
  }

  function Requested(invocations: seq<Invocation>, id: string): seq<Invocation> {
    if invocations == [] then []
    else (if RequestedBy(invocations[0], id) then [invocations[0]] else []) + Requested(invocations[1..], id)
  }

  /** The invocations of one request in order of their first event. */
  function Matching(invocations: seq<Invocation>, id: string): seq<Invocation> {
    SortBy(Requested(invocations, id), Started)
  }

  function SelectPhase(invocations: seq<Invocation>, phase: PhaseSlice): Result<seq<Invocation>, PhaseError>
    requires ValidSlice(phase)
  {
    var matching := Matching(invocations, phase.requestId);
    if End(phase) > |matching| then Failure(TooFew) else Success(matching[phase.skip..End(phase)])
  }

  lemma {:induction false} RequestedElements(invocations: seq<Invocation>, id: string)
    ensures forall v :: v in Requested(invocations, id) <==> v in invocations && RequestedBy(v, id)
    ensures Distinct(invocations) ==> Distinct(Requested(invocations, id))
  {
    if invocations != [] {
      RequestedElements(invocations[1..], id);
      assert invocations == [invocations[0]] + invocations[1..];
    }
  }

  lemma MatchingElements(invocations: seq<Invocation>, id: string)
    ensures forall v :: v in Matching(invocations, id) <==> v in invocations && RequestedBy(v, id)
    ensures Distinct(invocations) ==> Distinct(Matching(invocations, id))
  {
    RequestedElements(invocations, id);
    SortBySorts(Requested(invocations, id), Started);
    SameElements(Matching(invocations, id), Requested(invocations, id));
    if Distinct(invocations) {
      DistinctRearranged(Requested(invocations, id), Matching(invocations, id));
    }
  }

  lemma SelectedAt(invocations: seq<Invocation>, phase: PhaseSlice, v: Invocation) returns (k: int)
    requires ValidSlice(phase) && SelectPhase(invocations, phase).Success?
    requires v in SelectPhase(invocations, phase).value
    ensures RequestedBy(v, phase.requestId) && phase.skip <= k < End(phase) <= |Matching(invocations, phase.requestId)|
    ensures Matching(invocations, phase.requestId)[k] == v
  {
    MatchingElements(invocations, phase.requestId);
    hide Matching;
    var matching := Matching(invocations, phase.requestId);
    var i :| 0 <= i < phase.count && matching[phase.skip..End(phase)][i] == v;
    k := phase.skip + i;
  }

  ghost predicate Selects(invocations: seq<Invocation>, phase: PhaseSlice, v: Invocation)
    requires ValidSlice(phase)
  {
    SelectPhase(invocations, phase).Success? && v in SelectPhase(invocations, phase).value
  }

  lemma {:induction false} LastOfStage(events: seq<AuditEvent>, stage: Stage, i: nat)
    requires i < |events| && events[i].stage == stage && forall j :: i < j < |events| ==> events[j].stage != stage
    ensures OfStage(events, stage) != [] && Last(OfStage(events, stage)) == events[i]
  {
    if i == 0 {
      NoneOfStage(events[1..], stage);
    } else {
      LastOfStage(events[1..], stage, i - 1);
    }
  }

  lemma {:induction false} NoneOfStage(events: seq<AuditEvent>, stage: Stage)
    requires forall j :: 0 <= j < |events| ==> events[j].stage != stage
    ensures OfStage(events, stage) == []
  {
    if events != [] {
      NoneOfStage(events[1..], stage);
    }
  }

  predicate LastAt(events: seq<AuditEvent>, stage: Stage, i: nat) {
    i < |events| && events[i].stage == stage && forall j :: i < j < |events| ==> events[j].stage != stage
  }

  predicate NoneAt(events: seq<AuditEvent>, stage: Stage) {
    forall j :: 0 <= j < |events| ==> events[j].stage != stage
  }

  /** The naming event is the last request event, failing that the last answer event, failing that the last event. */
  lemma FinalEventIs(events: seq<AuditEvent>, i: nat)
    requires i < |events|
    ensures LastAt(events, RequestStage, i) ==> FinalEvent(events) == events[i]
    ensures NoneAt(events, RequestStage) && LastAt(events, AnswerStage, i) ==> FinalEvent(events) == events[i]
    ensures NoneAt(events, RequestStage) && NoneAt(events, AnswerStage) ==> FinalEvent(events) == events[|events| - 1]
  {
    if LastAt(events, RequestStage, i) {
      LastOfStage(events, RequestStage, i);
    } else if NoneAt(events, RequestStage) {
      NoneOfStage(events, RequestStage);
      if LastAt(events, AnswerStage, i) {
        LastOfStage(events, AnswerStage, i);
      } else if NoneAt(events, AnswerStage) {
        NoneOfStage(events, AnswerStage);
      }
    }
  }

  /** An invocation starts at its earliest event. */
  lemma {:induction false} StartsEarliest(events: seq<AuditEvent>)
    requires events != []
    ensures forall e :: e in events ==> StartedAt(events) <= e.observedAt
    ensures exists e :: e in events && StartedAt(events) == e.observedAt
  {
    assert events[0] in events;
    if |events| > 1 {
      StartsEarliest(events[1..]);
      assert events == [events[0]] + events[1..];
    }
  }

  /** The matching invocations are those of the request, each as often as it occurs, ordered by their start. */
  lemma MatchingInOrder(invocations: seq<Invocation>, id: string)
    ensures var m := Matching(invocations, id);
      && multiset(m) == multiset(Requested(invocations, id))
      && forall i, j :: 0 <= i < j < |m| ==> Started(m[i]) <= Started(m[j])
  {
    SortBySorts(Requested(invocations, id), Started);
  }

  /** Accepted slices never select one invocation twice. */
  lemma NoInvocationTwice(phases: seq<PhaseSlice>, i: nat, j: nat, invocations: seq<Invocation>, v: Invocation)
    requires Acceptable(phases) && i < |phases| && j < |phases| && i != j && Distinct(invocations)
    ensures !(Selects(invocations, phases[i], v) && Selects(invocations, phases[j], v))
  {
    if Selects(invocations, phases[i], v) && Selects(invocations, phases[j], v) {
      var p, q := phases[i], phases[j];
      MatchingElements(invocations, p.requestId);
      hide SelectPhase, Matching;
      var k := SelectedAt(invocations, p, v);
      var l := SelectedAt(invocations, q, v);
      assert false;
    }
  }

  // ---------------------------------------------------------------- tilings

  function CountSum(phases: seq<PhaseSlice>): int {
    if phases == [] then 0 else CountSum(phases[..|phases| - 1]) + phases[|phases| - 1].count
  }

  /** The slices follow each other without a gap, from the first invocation of one request. */
  ghost predicate Tiles(phases: seq<PhaseSlice>, id: string) {
    forall i :: 0 <= i < |phases| ==>
      phases[i].requestId == id && phases[i].count >= 1 && phases[i].skip == CountSum(phases[..i])
  }

  lemma {:induction false} CountSumGrows(phases: seq<PhaseSlice>, i: nat, j: nat)
    requires i <= j <= |phases| && forall k :: 0 <= k < |phases| ==> phases[k].count >= 1
    ensures 0 <= CountSum(phases[..i]) <= CountSum(phases[..j])
  {
    if j == 0 {
    } else {
      assert phases[..j][..j - 1] == phases[..j - 1];
      if i < j {
        CountSumGrows(phases, i, j - 1);
      } else {
        CountSumGrows(phases, i - 1, i - 1);
      }
    }
  }

  lemma TilesApart(phases: seq<PhaseSlice>, id: string)
    requires Tiles(phases, id)
    ensures RangesDisjoint(phases) && forall i :: 0 <= i < |phases| ==> phases[i].skip >= 0
  {
    forall i | 0 <= i < |phases| ensures phases[i].skip >= 0 {
      CountSumGrows(phases, 0, i);
    }
    forall i, j | 0 <= i < j < |phases| ensures Apart(phases[i], phases[j]) {
      assert phases[..i + 1][..i] == phases[..i];
      CountSumGrows(phases, i + 1, j);
    }
  }

  /** Every phase's selection, joined in phase order. */
  function SelectAll(invocations: seq<Invocation>, phases: seq<PhaseSlice>): Result<seq<Invocation>, PhaseError>
    requires forall i :: 0 <= i < |phases| ==> ValidSlice(phases[i])
  {
    if phases == [] then Success([])
    else
      var n := |phases| - 1;
      var before := SelectAll(invocations, phases[..n]);
      var selected := SelectPhase(invocations, phases[n]);
      if before.Failure? then before
      else if selected.Failure? then selected
      else Success(before.value + selected.value)
  }

  lemma ValidPrefix(phases: seq<PhaseSlice>, n: nat)
    requires n <= |phases| && forall i :: 0 <= i < |phases| ==> ValidSlice(phases[i])
    ensures forall i :: 0 <= i < n ==> ValidSlice(phases[..n][i])
  {
  }

  lemma TilesPrefix(phases: seq<PhaseSlice>, id: string, n: nat)
    requires Tiles(phases, id) && n <= |phases|
    ensures Tiles(phases[..n], id)
  {
    assert forall i :: 0 <= i < n ==> phases[..n][..i] == phases[..i];
  }

  /** Tiling slices select a gap-free prefix of the request's invocations, or there are too few of them. */
  lemma {:induction false} TilesSelectPrefix(invocations: seq<Invocation>, phases: seq<PhaseSlice>, id: string)
    requires Tiles(phases, id) && forall i :: 0 <= i < |phases| ==> ValidSlice(phases[i])
    ensures CountSum(phases) >= 0
    ensures var matching, total := Matching(invocations, id), CountSum(phases);
      SelectAll(invocations, phases) == if total <= |matching| then Success(matching[..total]) else Failure(TooFew)
  {
    if phases != [] {
      var n := |phases| - 1;
      var p, matching := phases[n], Matching(invocations, id);
      TilesPrefix(phases, id, n);
      ValidPrefix(phases, n);
      TilesSelectPrefix(invocations, phases[..n], id);
      assert p.skip == CountSum(phases[..n]) && p.requestId == id && ValidSlice(p);
      hide Tiles, Matching, ValidSlice;
      assert CountSum(phases) == End(p);
      if End(p) <= |matching| {
        assert matching[..End(p)] == matching[..p.skip] + matching[p.skip..End(p)];
      }
    }
  }

  // ---------------------------------------------------------------- NAME=COUNT

  /** A specification reads as a valid name and a positive count, given the integer parser. */
  ghost predicate Reads(text: string, parse: string -> Option<int>, name: string, count: int) {
    && ValidName(name) && count >= 1
    && exists raw :: text == name + "=" + raw && parse(raw) == Some(count)
  }

  lemma ReadsPartition(text: string, parse: string -> Option<int>, name: string, count: int)
    requires Reads(text, parse, name, count)
    ensures exists raw :: Partition(text) == Some((name, raw)) && parse(raw) == Some(count)
  {
    var raw :| text == name + "=" + raw && parse(raw) == Some(count);
    PartitionUnique(name, raw);
  }

  ghost predicate SliceReads(text: string, parse: string -> Option<int>, p: PhaseSlice) {
    Reads(text, parse, p.name, p.count)
  }

  ghost predicate LegacyReading(specs: seq<string>, parse: string -> Option<int>, id: string, phases: seq<PhaseSlice>) {
    && |phases| == |specs|
    && (forall i :: 0 <= i < |specs| ==> SliceReads(specs[i], parse, phases[i]))
    && Tiles(phases, id)
  }

  /**
   Legacy specifications are accepted exactly when there is one, each is NAME=COUNT with distinct names, and
   the request hash is a digest; the slices then tile a prefix, so the overlap check never fires.
   */
  method LegacyPhaseSlices(specs: seq<string>, id: string, parse: string -> Option<int>)
    returns (r: Result<seq<PhaseSlice>, PhaseError>)
    ensures r.Success? ==> LegacyReading(specs, parse, id, r.value) && Acceptable(r.value)
    ensures r.Success? <==>
      && specs != [] && ValidDigest(id)
      && exists phases :: LegacyReading(specs, parse, id, phases) && DistinctNames(phases)
    ensures r != Failure(Overlap)
  {
    var phases: seq<PhaseSlice> := [];
    var offset := 0;
    for i := 0 to |specs|
      invariant |phases| == i && offset == CountSum(phases)
      invariant forall k :: 0 <= k < i ==> SliceReads(specs[k], parse, phases[k])
      invariant Tiles(phases, id)
    {
      var parts := Partition(specs[i]);
      if parts.None? || !ValidName(parts.value.0) {
        NotRead(specs, i, parse, id);
        return Failure(NotNameCount);
      }
      var count := parse(parts.value.1);
      if count.None? || count.value < 1 {
        NotRead(specs, i, parse, id);
        return Failure(CountNotPositive);
      }
      var p := PhaseSlice(parts.value.0, id, offset, count.value);
      assert SliceReads(specs[i], parse, p);
      TilesAppend(phases, id, p);
      phases := phases + [p];
      offset := offset + count.value;
    }
    TilesApart(phases, id);
    LegacyDecides(specs, parse, id, phases);
    r := ValidatePhaseSlices(phases);
  }

  ghost predicate DistinctNames(phases: seq<PhaseSlice>) {
    forall i, j :: 0 <= i < j < |phases| ==> phases[i].name != phases[j].name
  }

  lemma TilesAppend(phases: seq<PhaseSlice>, id: string, p: PhaseSlice)
    requires Tiles(phases, id) && p.requestId == id && p.count >= 1 && p.skip == CountSum(phases)
    ensures Tiles(phases + [p], id) && CountSum(phases + [p]) == CountSum(phases) + p.count
  {
    assert (phases + [p])[..|phases|] == phases;
    assert forall i :: 0 <= i < |phases| ==> (phases + [p])[..i] == phases[..i];
  }

  lemma NotRead(specs: seq<string>, i: nat, parse: string -> Option<int>, id: string)
    requires i < |specs|
    requires var parts := Partition(specs[i]);
      || parts.None? || !ValidName(parts.value.0) || parse(parts.value.1).None? || parse(parts.value.1).value < 1
    ensures forall phases :: !LegacyReading(specs, parse, id, phases)
  {
    forall phases: seq<PhaseSlice> ensures !LegacyReading(specs, parse, id, phases) {
      if LegacyReading(specs, parse, id, phases) {
        assert SliceReads(specs[i], parse, phases[i]);
        ReadsPartition(specs[i], parse, phases[i].name, phases[i].count);
      }
    }
  }

  lemma SameReading(text: string, parse: string -> Option<int>, p: PhaseSlice, q: PhaseSlice)
    requires SliceReads(text, parse, p) && SliceReads(text, parse, q)
    ensures p.name == q.name && p.count == q.count
  {
    ReadsPartition(text, parse, p.name, p.count);
    ReadsPartition(text, parse, q.name, q.count);
  }

  lemma LegacyDecides(specs: seq<string>, parse: string -> Option<int>, id: string, phases: seq<PhaseSlice>)
    requires LegacyReading(specs, parse, id, phases) && forall i :: 0 <= i < |phases| ==> phases[i].skip >= 0
    ensures Named(phases) <==> DistinctNames(phases) && (specs == [] || ValidDigest(id))
    ensures forall others :: LegacyReading(specs, parse, id, others) && DistinctNames(others) ==> DistinctNames(phases)
  {
    forall i | 0 <= i < |phases| ensures ValidSlice(phases[i]) <==> ValidDigest(id) {
      assert SliceReads(specs[i], parse, phases[i]);
    }
    if specs != [] {
      assert ValidSlice(phases[0]) <==> ValidDigest(id);
    }
    forall others: seq<PhaseSlice> | LegacyReading(specs, parse, id, others) && DistinctNames(others)
      ensures DistinctNames(phases)
    {
      forall i | 0 <= i < |phases| ensures phases[i].name == others[i].name {
        SameReading(specs[i], parse, phases[i], others[i]);
      }
    }
  }
}
