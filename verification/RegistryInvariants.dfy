/** Preservation of the registry, completion-log and eviction invariants. */
module RegistryInvariants {
  import opened Counting
  import opened RequestModel
  import opened RequestInvariants

  // ---------------------------------------------------------------- what a prune may do

  lemma PruneKeeps(c: Config, entries: map<Key, Entry>, now: real, kept: map<Key, Entry>)
    requires PruneOutcome(c, entries, now, kept)
    ensures forall k :: k in kept ==> k in entries && kept[k] == entries[k] && !Expired(c, kept[k], now)
    ensures forall k :: k in entries && !Settled(entries[k]) ==> k in kept
  {
    var live := Unexpired(c, entries, now);
    forall k | k in kept ensures k in entries && kept[k] == entries[k] && !Expired(c, kept[k], now) {
      assert k in live;
    }
    forall k | k in entries && !Settled(entries[k]) ensures k in kept {
      assert k in live;
    }
  }

  /** Whatever a prune drops completed no later than whatever settled entry it keeps. */
  lemma PruneDropsOldest(c: Config, entries: map<Key, Entry>, now: real, kept: map<Key, Entry>, gone: Key, k: Key)
    requires PruneOutcome(c, entries, now, kept)
    requires gone in entries && gone !in kept && Settled(entries[gone])
    requires k in kept && Settled(kept[k])
    ensures entries[gone].completedAt.value <= kept[k].completedAt.value
  {
    PruneKeeps(c, entries, now, kept);
    var live := Unexpired(c, entries, now);
    if gone in live {
      assert live[gone] == entries[gone];
    }
  }

  lemma KeyCount(m: map<Key, Entry>)
    ensures |m.Keys| == |m|
  {
  }

  lemma SubsetSize(a: set<Key>, b: set<Key>)
    requires a <= b
    ensures |a| <= |b|
  {
    var rest := b - a;
    assert b == a + rest;
  }

  /** After a prune the registry fits its bound or holds no settled entry; settled entries always fit. */
  lemma PruneBound(c: Config, entries: map<Key, Entry>, now: real, kept: map<Key, Entry>)
    requires PruneOutcome(c, entries, now, kept)
    ensures |kept| <= c.maxReplayEntries || SettledKeys(kept) == {}
    ensures |SettledKeys(kept)| <= c.maxReplayEntries
  {
    if |kept| <= c.maxReplayEntries {
      KeyCount(kept);
      SubsetSize(SettledKeys(kept), kept.Keys);
    }
  }

  // ---------------------------------------------------------------- which entries a prune may drop

  predicate CompletedBefore(live: map<Key, Entry>, j: Key, k: Key) {
    && j in live && Settled(live[j]) && k in live && Settled(live[k])
    && live[j].completedAt.value < live[k].completedAt.value
  }

  ghost function EarlierThan(live: map<Key, Entry>, k: Key): set<Key> {
    set j | j in live && CompletedBefore(live, j, k)
  }

  /** A settled entry is at risk when it is expired, or fewer entries completed before it than must go. */
  ghost predicate MayDrop(c: Config, entries: map<Key, Entry>, now: real, k: Key) {
    && k in entries && Settled(entries[k])
    && var live := Unexpired(c, entries, now);
    Expired(c, entries[k], now) || |EarlierThan(live, k)| < |live| - c.maxReplayEntries
  }

  /** No settled key outside `dropped` completed before one inside it. */
  ghost predicate Oldest(live: map<Key, Entry>, dropped: set<Key>) {
    && dropped <= SettledKeys(live)
    && forall gone, k :: gone in dropped && k in SettledKeys(live) && k !in dropped ==> !CompletedBefore(live, k, gone)
  }

  lemma {:induction false} EarliestOf(live: map<Key, Entry>, keys: set<Key>) returns (first: Key)
    requires keys != {} && keys <= SettledKeys(live)
    ensures first in keys && forall k :: k in keys ==> !CompletedBefore(live, k, first)
    decreases keys
  {
    var one :| one in keys;
    var others := keys - {one};
    assert keys == others + {one};
    first := one;
    if others != {} {
      var other := EarliestOf(live, others);
      if CompletedBefore(live, other, one) {
        first := other;
      }
      forall k | k in keys ensures !CompletedBefore(live, k, first) {
        assert k in others ==> !CompletedBefore(live, k, other);
      }
    }
  }

  lemma {:induction false} GrowOldest(live: map<Key, Entry>, dropped: set<Key>, n: nat) returns (grown: set<Key>)
    requires Oldest(live, dropped) && |dropped| <= n <= |SettledKeys(live)|
    ensures Oldest(live, grown) && dropped <= grown && |grown| == n
    decreases n - |dropped|
  {
    if |dropped| == n {
      grown := dropped;
    } else {
      var rest := SettledKeys(live) - dropped;
      assert SettledKeys(live) == dropped + rest;
      assert rest != {};
      var first := EarliestOf(live, rest);
      grown := GrowOldest(live, dropped + {first}, n);
    }
  }

  lemma MapMinus(m: map<Key, Entry>, keys: set<Key>)
    requires keys <= m.Keys
    ensures |m - keys| == |m| - |keys|
  {
    var rest := m - keys;
    assert m.Keys == rest.Keys + keys;
    KeyCount(m);
    KeyCount(rest);
  }

  /** Dropping enough of the oldest settled entries is an outcome of the prune. */
  lemma OldestGone(c: Config, entries: map<Key, Entry>, now: real, dropped: set<Key>)
    requires var live := Unexpired(c, entries, now);
      && Oldest(live, dropped) && |live| > c.maxReplayEntries && |dropped| <= |live| - c.maxReplayEntries
      && (|dropped| == |live| - c.maxReplayEntries || dropped == SettledKeys(live))
    ensures PruneOutcome(c, entries, now, Unexpired(c, entries, now) - dropped)
  {
    MapMinus(Unexpired(c, entries, now), dropped);
  }

  /** The prune has an outcome that drops a given set of oldest entries, if they are not too many. */
  lemma OutcomeDropping(c: Config, entries: map<Key, Entry>, now: real, some: set<Key>) returns (kept: map<Key, Entry>)
    requires var live := Unexpired(c, entries, now);
      Oldest(live, some) && |live| > c.maxReplayEntries && |some| <= |live| - c.maxReplayEntries
    ensures PruneOutcome(c, entries, now, kept) && forall k :: k in some ==> k !in kept
  {
    var live := Unexpired(c, entries, now);
    var overflow, settled := |live| - c.maxReplayEntries, SettledKeys(live);
    SubsetSize(some, settled);
    var n := if overflow < |settled| then overflow else |settled|;
    var dropped := GrowOldest(live, some, n);
    if n == |settled| {
      AllOf(dropped, settled);
    }
    OldestGone(c, entries, now, dropped);
    kept := live - dropped;
  }

  lemma AllOf(a: set<Key>, b: set<Key>)
    requires a <= b && |a| == |b|
    ensures a == b
  {
    if k :| k in b && k !in a {
      SubsetSize(a, b - {k});
    }
  }

  /** Every prune has an outcome. */
  lemma PruneExists(c: Config, entries: map<Key, Entry>, now: real) returns (kept: map<Key, Entry>)
    ensures PruneOutcome(c, entries, now, kept)
  {
    var live := Unexpired(c, entries, now);
    if |live| <= c.maxReplayEntries {
      kept := live;
    } else {
      kept := OutcomeDropping(c, entries, now, {});
    }
  }

  lemma EarlierGo(c: Config, entries: map<Key, Entry>, now: real, kept: map<Key, Entry>, k: Key)
    requires var live := Unexpired(c, entries, now);
      PruneOutcome(c, entries, now, kept) && k in live && Settled(live[k]) && k !in kept
    ensures var live := Unexpired(c, entries, now);
      && EarlierThan(live, k) + {k} <= live.Keys - kept.Keys && k !in EarlierThan(live, k)
      && kept.Keys <= live.Keys && |live| > c.maxReplayEntries && |kept| >= c.maxReplayEntries
  {
    var live := Unexpired(c, entries, now);
    forall j | j in kept ensures j !in EarlierThan(live, k) {
      assert j in live && kept[j] == live[j];
    }
  }

  lemma DroppedIsAtRisk(c: Config, entries: map<Key, Entry>, now: real, kept: map<Key, Entry>, k: Key)
    requires PruneOutcome(c, entries, now, kept) && k in entries && Settled(entries[k]) && k !in kept
    ensures MayDrop(c, entries, now, k)
  {
    var live := Unexpired(c, entries, now);
    if !Expired(c, entries[k], now) {
      assert k in live && live[k] == entries[k];
      EarlierGo(c, entries, now, kept, k);
      hide PruneOutcome, Unexpired, EarlierThan, Expired;
      var gone := live.Keys - kept.Keys;
      SubsetSize(EarlierThan(live, k) + {k}, gone);
      assert live.Keys == kept.Keys + gone;
      KeyCount(live);
      KeyCount(kept);
    }
  }

  /** An entry is at risk exactly when the prune does not spare its completion time. */
  lemma RiskIsNotSpared(c: Config, entries: map<Key, Entry>, now: real, k: Key)
    requires k in entries && entries[k].completedAt.Some?
    ensures MayDrop(c, entries, now, k) <==> !Spares(c, entries, now, entries[k].completedAt.value)
  {
    var live, at := Unexpired(c, entries, now), entries[k].completedAt.value;
    assert live.Keys == Held(c, entries, now);
    KeyCount(live);
    if now - at < c.replayTtl {
      assert live[k] == entries[k];
      assert EarlierThan(live, k) == HeldBefore(c, entries, now, at);
    }
  }

  /** What a prune leaves, by age and number alone: only held keys, all of them while they fit the maximum. */
  lemma PruneByAge(c: Config, entries: map<Key, Entry>, now: real, kept: map<Key, Entry>)
    requires PruneOutcome(c, entries, now, kept)
    ensures kept.Keys <= Held(c, entries, now) && forall k :: k in kept ==> kept[k] == entries[k]
    ensures |Held(c, entries, now)| <= c.maxReplayEntries ==> kept.Keys == Held(c, entries, now)
    ensures |Held(c, entries, now)| > c.maxReplayEntries ==>
      || |kept| == c.maxReplayEntries
      || (|kept| > c.maxReplayEntries && forall k :: k in kept ==> kept[k].completedAt.None?)
    ensures forall k :: k in entries && entries[k].completedAt.None? ==> k in kept
  {
    var live := Unexpired(c, entries, now);
    assert live.Keys == Held(c, entries, now);
    KeyCount(live);
    PruneKeeps(c, entries, now, kept);
  }

  lemma HeldFits(c: Config, entries: map<Key, Entry>, now: real)
    ensures |Held(c, entries, now)| <= |entries|
  {
    KeyCount(entries);
    SubsetSize(Held(c, entries, now), entries.Keys);
  }

  /** A settled entry is dropped by some outcome of the prune exactly when the prune does not spare it. */
  lemma PruneMayDrop(c: Config, entries: map<Key, Entry>, now: real, k: Key)
    requires k in entries && entries[k].completedAt.Some?
    ensures (exists kept :: PruneOutcome(c, entries, now, kept) && k !in kept) <==>
      !Spares(c, entries, now, entries[k].completedAt.value)
    ensures MayDrop(c, entries, now, k) <==> exists kept :: PruneOutcome(c, entries, now, kept) && k !in kept
  {
    RiskIsNotSpared(c, entries, now, k);
    hide PruneOutcome;
    var live := Unexpired(c, entries, now);
    if MayDrop(c, entries, now, k) {
      if Expired(c, entries[k], now) {
        var kept := PruneExists(c, entries, now);
        PruneKeeps(c, entries, now, kept);
      } else {
        var some := EarlierThan(live, k) + {k};
        assert k !in EarlierThan(live, k);
        var kept := OutcomeDropping(c, entries, now, some);
      }
    }
    if kept :| PruneOutcome(c, entries, now, kept) && k !in kept {
      DroppedIsAtRisk(c, entries, now, kept, k);
    }
  }

  // ---------------------------------------------------------------- quiet steps

  /** A step that leaves the registry, its history and every pending completion alone. */
  ghost predicate RegistryQuiet(s: State, t: State) {
    && Grows(s, t) && |t.submissions| == |s.submissions|
    && t.config == s.config && t.entries == s.entries && t.completions == s.completions && t.evicted == s.evicted
    && s.clock <= t.clock
    && forall f :: 0 <= f < |s.submissions| ==> t.submissions[f].completeDue == s.submissions[f].completeDue
  }

  lemma QuietStep(s: State, a: Action, t: State)
    requires Enabled(s, a) && t == Next(s, a) && !a.LookUp? && !a.SubmitOk? && !a.Complete?
    ensures RegistryQuiet(s, t)
  {
    StepGrows(s, a);
  }

  lemma QuietRegistry(s: State, t: State)
    requires RegistryOk(s) && RegistryQuiet(s, t)
    ensures RegistryOk(t)
  {
    forall k | k in t.entries ensures forall f: nat :: HasKey(t, f, k) ==> f <= t.entries[k].future {
      forall f: nat | HasKey(t, f, k) ensures f <= t.entries[k].future { assert HasKey(s, f, k); }
    }
    forall f | 0 <= f < |t.submissions| && t.submissions[f].completeDue && t.submissions[f].job.Some?
      ensures Registered(t, f)
    {
      assert Registered(s, f);
    }
  }

  lemma QuietCache(s: State, t: State)
    requires CacheOk(s) && RegistryQuiet(s, t)
    ensures CacheOk(t)
  {
    QuietRegistry(s, t);
    forall i | 0 <= i < |t.completions| ensures CompletionOk(t, t.completions[i]) {
      assert CompletionOk(s, s.completions[i]);
    }
    assert AcceptedOk(t) by {
      forall i | 0 <= i < |t.completions| && t.completions[i].accepted
        ensures t.completions[i].future in t.evicted || Cached(t, t.completions[i])
      {
        assert t.completions[i].future in s.evicted || Cached(s, s.completions[i]);
      }
    }
    assert SettledOk(t) by {
      forall k | k in t.entries && Settled(t.entries[k]) ensures SettledFromLog(t, k) {
        assert SettledFromLog(s, k);
      }
    }
  }

  // ---------------------------------------------------------------- pruning

  ghost function Pruned(s: State, kept: map<Key, Entry>): State {
    s.(entries := kept, evicted := s.evicted + Dropped(s.entries, kept))
  }

  /** A completion is found in the log by its future alone. */
  lemma SameCompletion(s: State, i: nat, j: nat)
    requires CompletionsOk(s) && CompletionOrderOk(s)
    requires i < |s.completions| && j < |s.completions| && s.completions[i].future == s.completions[j].future
    ensures i == j
  {
    assert CompletionOk(s, s.completions[i]) && CompletionOk(s, s.completions[j]);
  }

  lemma SettledAt(s: State, k: Key) returns (i: nat)
    requires SettledOk(s) && k in s.entries && Settled(s.entries[k])
    ensures i < |s.completions| && s.completions[i].accepted && s.completions[i].key == k
    ensures s.entries[k].future == s.completions[i].future && s.entries[k].completedAt == Some(s.completions[i].at)
  {
    assert SettledFromLog(s, k);
    i :| 0 <= i < |s.completions| && s.completions[i].accepted && s.completions[i].key == k
      && Cached(s, s.completions[i]);
  }

  lemma DroppedTime(s: State, kept: map<Key, Entry>, i: nat) returns (gone: Key)
    requires CompletionsOk(s) && CompletionOrderOk(s) && SettledOk(s)
    requires i < |s.completions| && s.completions[i].future in Dropped(s.entries, kept)
    ensures gone in s.entries && gone !in kept && Settled(s.entries[gone])
    ensures s.entries[gone].completedAt == Some(s.completions[i].at)
  {
    gone :| gone in s.entries && gone !in kept && Settled(s.entries[gone])
      && s.entries[gone].future == s.completions[i].future;
    var j := SettledAt(s, gone);
    SameCompletion(s, i, j);
  }

  lemma PrunedRegistry(s: State, now: real, kept: map<Key, Entry>)
    requires RegistryOk(s) && PruneOutcome(s.config, s.entries, now, kept)
    ensures RegistryOk(Pruned(s, kept)) && (EvictedOk(s) ==> EvictedOk(Pruned(s, kept)))
  {
    PruneKeeps(s.config, s.entries, now, kept);
    hide PruneOutcome;
    var t := Pruned(s, kept);
    forall k | k in t.entries ensures forall f: nat :: HasKey(t, f, k) ==> f <= t.entries[k].future {
      forall f: nat | HasKey(t, f, k) ensures f <= t.entries[k].future { assert HasKey(s, f, k); }
    }
    forall f | 0 <= f < |t.submissions| && t.submissions[f].completeDue && t.submissions[f].job.Some?
      ensures Registered(t, f)
    {
      assert Registered(s, f);
    }
  }

  lemma PrunedLog(s: State, now: real, kept: map<Key, Entry>)
    requires CompletionsOk(s) && AcceptedOk(s) && SettledOk(s) && PruneOutcome(s.config, s.entries, now, kept)
    ensures CompletionsOk(Pruned(s, kept)) && AcceptedOk(Pruned(s, kept)) && SettledOk(Pruned(s, kept))
  {
    PruneKeeps(s.config, s.entries, now, kept);
    hide PruneOutcome;
    var t := Pruned(s, kept);
    forall i | 0 <= i < |t.completions| ensures CompletionOk(t, t.completions[i]) {
      assert CompletionOk(s, s.completions[i]);
    }
    forall i | 0 <= i < |t.completions| && t.completions[i].accepted
      ensures t.completions[i].future in t.evicted || Cached(t, t.completions[i])
    {
      assert t.completions[i].future in s.evicted || Cached(s, s.completions[i]);
    }
    forall k | k in t.entries && Settled(t.entries[k]) ensures SettledFromLog(t, k) {
      assert SettledFromLog(s, k);
    }
  }

  lemma PrunedOrder(s: State, now: real, kept: map<Key, Entry>)
    requires CompletionsOk(s) && CompletionOrderOk(s) && SettledOk(s) && EvictionOrderOk(s)
    requires PruneOutcome(s.config, s.entries, now, kept)
    ensures EvictionOrderOk(Pruned(s, kept))
  {
    PruneKeeps(s.config, s.entries, now, kept);
    var t := Pruned(s, kept);
    forall i, k | 0 <= i < |t.completions| && t.completions[i].future in t.evicted
                  && k in t.entries && Settled(t.entries[k])
      ensures t.completions[i].at <= t.entries[k].completedAt.value
    {
      if s.completions[i].future !in s.evicted {
        var gone := DroppedTime(s, kept, i);
        PruneDropsOldest(s.config, s.entries, now, kept, gone, k);
      }
    }
  }

  lemma PrunedCache(s: State, now: real, kept: map<Key, Entry>)
    requires CacheOk(s) && PruneOutcome(s.config, s.entries, now, kept)
    ensures CacheOk(Pruned(s, kept)) && BoundOk(Pruned(s, kept))
  {
    PrunedRegistry(s, now, kept);
    PrunedLog(s, now, kept);
    PrunedOrder(s, now, kept);
    PruneBound(s.config, s.entries, now, kept);
  }

  // ---------------------------------------------------------------- the three steps that touch the registry

  lemma LookUpIsPrune(s: State, q: nat, kept: map<Key, Entry>)
    requires q < |s.requests| && s.requests[q].phase.Looking?
    ensures RegistryQuiet(Pruned(s, kept), NextLookUp(s, q, kept))
  {
  }

  lemma CacheLookUp(s: State, q: nat, kept: map<Key, Entry>)
    requires CacheOk(s) && Enabled(s, LookUp(q, kept))
    ensures CacheOk(NextLookUp(s, q, kept)) && BoundOk(NextLookUp(s, q, kept))
  {
    PrunedCache(s, s.requests[q].phase.now, kept);
    LookUpIsPrune(s, q, kept);
    hide PruneOutcome, NextLookUp, Pruned, CacheOk;
    QuietCache(Pruned(s, kept), NextLookUp(s, q, kept));
  }

  lemma CacheSubmit(s: State, q: nat)
    requires CacheOk(s) && LockOk(s) && BoundOk(s) && Enabled(s, SubmitOk(q))
    ensures CacheOk(NextSubmitOk(s, q)) && BoundOk(NextSubmitOk(s, q))
  {
    var t := NextSubmitOk(s, q);
    var work := s.requests[q].phase.work;
    if work.None? {
      SubmitRegistry(s, t, work);
    } else {
      assert s.holder == Some(q);
      SubmitRegistry(s, t, work);
      assert SettledKeys(t.entries) == SettledKeys(s.entries);
    }
    hide RegistryOk;
    SubmitLog(s, t, work);
  }

  /** A submission extends the futures and, if keyed, adds one running entry for a free key. */
  ghost predicate Submitted(s: State, t: State, work: Option<Job>) {
    && |t.submissions| == |s.submissions| + 1 && t.submissions[..|s.submissions|] == s.submissions
    && t.submissions[|s.submissions|].job == work
    && (t.submissions[|s.submissions|].completeDue <==> work.Some?)
    && t.config == s.config && t.clock == s.clock && t.completions == s.completions && t.evicted == s.evicted
    && match work
       case None => t.entries == s.entries
       case Some(job) =>
         && job.key !in s.entries
         && t.entries == s.entries[job.key := Entry(job.input, |s.submissions|, job.cacheResult, None)]
  }

  lemma SubmitRegistry(s: State, t: State, work: Option<Job>)
    requires RegistryOk(s) && Submitted(s, t, work)
    ensures RegistryOk(t)
  {
    var n := |s.submissions|;
    assert forall f :: 0 <= f < n ==> t.submissions[f] == t.submissions[..n][f];
    forall k | k in t.entries ensures forall f: nat :: HasKey(t, f, k) ==> f <= t.entries[k].future {
      forall f: nat | HasKey(t, f, k) ensures f <= t.entries[k].future {
        if f < n { assert HasKey(s, f, k); }
      }
    }
    forall f | 0 <= f < |t.submissions| && t.submissions[f].completeDue && t.submissions[f].job.Some?
      ensures Registered(t, f)
    {
      if f < n { assert Registered(s, f); }
    }
  }

  lemma SubmitLog(s: State, t: State, work: Option<Job>)
    requires CompletionsOk(s) && AcceptedOk(s) && SettledOk(s) && EvictedOk(s) && EvictionOrderOk(s)
    requires Submitted(s, t, work)
    ensures CompletionsOk(t) && AcceptedOk(t) && SettledOk(t) && EvictedOk(t) && EvictionOrderOk(t)
  {
    var n := |s.submissions|;
    assert forall f :: 0 <= f < n ==> t.submissions[f] == t.submissions[..n][f];
    forall i | 0 <= i < |t.completions| ensures CompletionOk(t, t.completions[i]) {
      assert CompletionOk(s, s.completions[i]);
    }
    forall i | 0 <= i < |t.completions| && t.completions[i].accepted
      ensures t.completions[i].future in t.evicted || Cached(t, t.completions[i])
    {
      assert t.completions[i].future in s.evicted || Cached(s, s.completions[i]);
    }
    forall k | k in t.entries && Settled(t.entries[k]) ensures SettledFromLog(t, k) {
      assert SettledFromLog(s, k);
    }
  }

  /** The state between stamping (or removing) a completed entry and pruning. */
  ghost function Recorded(s: State, f: nat): State
    requires IsDone(s, f) && Registered(s, f)
  {
    var u := s.submissions[f];
    var key := u.job.value.key;
    var accepted := CompletesCacheable(s, f);
    s.(submissions := s.submissions[f := u.(completeDue := false)],
       entries := if accepted then Stamped(s, f) else s.entries - {key},
       completions := s.completions + [Completion(key, s.entries[key].input, f, u.status.outcome, accepted, s.clock)])
  }

  lemma RecordedRegistry(s: State, f: nat)
    requires RegistryOk(s) && IsDone(s, f) && Registered(s, f) && s.submissions[f].completeDue
    ensures RegistryOk(Recorded(s, f))
  {
    var t := Recorded(s, f);
    forall k | k in t.entries ensures forall g: nat :: HasKey(t, g, k) ==> g <= t.entries[k].future {
      forall g: nat | HasKey(t, g, k) ensures g <= t.entries[k].future { assert HasKey(s, g, k); }
    }
    forall g | 0 <= g < |t.submissions| && t.submissions[g].completeDue && t.submissions[g].job.Some?
      ensures Registered(t, g)
    {
      assert Registered(s, g);
    }
  }

  lemma RecordedCompletions(s: State, f: nat)
    requires RegistryOk(s) && CompletionsOk(s) && CompletionOrderOk(s)
    requires IsDone(s, f) && Registered(s, f) && s.submissions[f].completeDue
    ensures CompletionsOk(Recorded(s, f)) && CompletionOrderOk(Recorded(s, f))
  {
    var t := Recorded(s, f);
    var n := |s.completions|;
    forall i | 0 <= i < |t.completions| ensures CompletionOk(t, t.completions[i]) {
      if i < n { assert CompletionOk(s, s.completions[i]); }
    }
    forall i | 0 <= i < n && t.completions[i].key == t.completions[n].key
      ensures t.completions[i].future < f
    {
      assert CompletionOk(s, s.completions[i]);
      assert HasKey(s, s.completions[i].future, s.completions[i].key);
    }
  }

  lemma RecordedLog(s: State, f: nat)
    requires RegistryOk(s) && CompletionsOk(s) && AcceptedOk(s) && SettledOk(s) && EvictedOk(s) && EvictionOrderOk(s)
    requires IsDone(s, f) && Registered(s, f) && s.submissions[f].completeDue
    ensures AcceptedOk(Recorded(s, f)) && SettledOk(Recorded(s, f)) && EvictedOk(Recorded(s, f))
        && EvictionOrderOk(Recorded(s, f))
  {
    var t := Recorded(s, f);
    var n := |s.completions|;
    var key := s.submissions[f].job.value.key;
    forall i | 0 <= i < |t.completions| && t.completions[i].accepted
      ensures t.completions[i].future in t.evicted || Cached(t, t.completions[i])
    {
      if i < n {
        assert t.completions[i].future in s.evicted || Cached(s, s.completions[i]);
        assert CompletionOk(s, s.completions[i]);
      }
    }
    forall k | k in t.entries && Settled(t.entries[k]) ensures SettledFromLog(t, k) {
      if k == key {
        assert t.completions[n].accepted && t.completions[n].key == k && Cached(t, t.completions[n]);
      } else {
        var i := SettledAt(s, k);
        assert t.completions[i] == s.completions[i] && Cached(t, t.completions[i]);
      }
    }
    forall i, k | 0 <= i < |t.completions| && t.completions[i].future in t.evicted
                  && k in t.entries && Settled(t.entries[k])
      ensures t.completions[i].at <= t.entries[k].completedAt.value
    {
      if i < n { assert CompletionOk(s, s.completions[i]); }
    }
  }

  lemma CacheComplete(s: State, f: nat, kept: map<Key, Entry>)
    requires CacheOk(s) && BoundOk(s) && Enabled(s, Complete(f, kept)) && s.submissions[f].job.Some?
    ensures CacheOk(NextComplete(s, f, kept)) && BoundOk(NextComplete(s, f, kept))
  {
    var t := NextComplete(s, f, kept);
    var r := Recorded(s, f);
    RecordedRegistry(s, f);
    RecordedCompletions(s, f);
    RecordedLog(s, f);
    if CompletesCacheable(s, f) {
      PrunedCache(r, s.clock, kept);
      assert t == Pruned(r, kept);
    } else {
      assert t == r;
      SubsetSize(SettledKeys(t.entries), SettledKeys(s.entries));
    }
  }

  lemma CacheStep(s: State, a: Action, t: State)
    requires CacheOk(s) && BoundOk(s) && LockOk(s) && FuturesOk(s) && Enabled(s, a) && t == Next(s, a)
    ensures CacheOk(t) && BoundOk(t)
  {
    if a.LookUp? {
      CacheLookUp(s, a.q, a.kept);
    } else if a.SubmitOk? {
      CacheSubmit(s, a.q);
    } else if a.Complete? {
      CacheComplete(s, a.f, a.kept);
    } else {
      QuietStep(s, a, t);
      QuietCache(s, t);
    }
  }
}
