/**
 Hash-chained receipt logs.  A digest is a free constructor applied to the body it digests, so equal
 digests mean equal bodies; canonical JSON is likewise taken to be injective.
 */
module ReceiptChain {
  import opened Counting

  datatype Digest = Zero | H(body: Body)

  /** The fields of a receipt other than its own hash; any of them may be missing from a parsed line. */
  datatype Body = Body(sequence: Option<int>, event: Option<string>, previous: Option<Digest>,
                       rest: map<string, string>)

  datatype Entry = Entry(body: Body, entryHash: Option<Digest>)

  datatype Line = Unparsable | NotAnObject | Object(entry: Entry)

  datatype ChainProblem = InvalidJson | NotObject | SequenceMismatch | PredecessorMismatch | HashMismatch

  datatype ChainError = EmptyLog | BadLine(line: nat, problem: ChainProblem)

  // ---------------------------------------------------------------- what a valid log is

  function HeadOf(entries: seq<Entry>): Digest {
    if entries == [] then Zero else H(entries[|entries| - 1].body)
  }

  predicate EntryOk(entries: seq<Entry>, i: int) {
    && 0 <= i < |entries|
    && entries[i].body.sequence == Some(i + 1)
    && entries[i].body.previous == Some(HeadOf(entries[..i]))
    && entries[i].entryHash == Some(H(entries[i].body))
  }

  /** Each entry carries its number, the hash of its predecessor and its own hash. */
  ghost predicate Chained(entries: seq<Entry>) {
    forall i {:trigger EntryOk(entries, i)} :: 0 <= i < |entries| ==> EntryOk(entries, i)
  }

  ghost predicate ValidLog(entries: seq<Entry>) { entries != [] && Chained(entries) }

  function Lines(entries: seq<Entry>): seq<Line> {
    seq(|entries|, i requires 0 <= i < |entries| => Object(entries[i]))
  }

  // ---------------------------------------------------------------- the validator

  /** The first thing wrong with a line that follows `entries`, if anything is. */
  function LineProblem(entries: seq<Entry>, line: Line): Option<ChainProblem> {
    match line
    case Unparsable => Some(InvalidJson)
    case NotAnObject => Some(NotObject)
    case Object(entry) =>
      if entry.body.sequence != Some(|entries| + 1) then Some(SequenceMismatch)
      else if entry.body.previous != Some(HeadOf(entries)) then Some(PredecessorMismatch)
      else if entry.entryHash != Some(H(entry.body)) then Some(HashMismatch)
      else None
  }

  /** The validator accepts exactly the lines of valid logs, and names the first line that is wrong. */
  method ValidateReceiptChain(lines: seq<Line>) returns (r: Result<seq<Entry>, ChainError>)
    ensures r.Success? ==> ValidLog(r.value) && Lines(r.value) == lines
    ensures r.Failure? ==> forall entries :: ValidLog(entries) ==> Lines(entries) != lines
    ensures r.Failure? && r.error.EmptyLog? ==> lines == []
    ensures r.Failure? && r.error.BadLine? ==>
              exists good :: Chained(good) && |good| + 1 == r.error.line <= |lines|
                && lines[..|good|] == Lines(good) && LineProblem(good, lines[|good|]) == Some(r.error.problem)
  {
    var entries: seq<Entry> := [];
    var previous := Zero;
    for n := 0 to |lines|
      invariant |entries| == n && Chained(entries) && Lines(entries) == lines[..n] && previous == HeadOf(entries)
    {
      if LineProblem(entries, lines[n]).Some? {
        RejectionIsRight(lines, entries);
      }
      if lines[n].Unparsable? {
        return Failure(BadLine(n + 1, InvalidJson));
      }
      if lines[n].NotAnObject? {
        return Failure(BadLine(n + 1, NotObject));
      }
      var parsed := lines[n].entry;
      if parsed.body.sequence != Some(n + 1) {
        return Failure(BadLine(n + 1, SequenceMismatch));
      }
      if parsed.body.previous != Some(previous) {
        return Failure(BadLine(n + 1, PredecessorMismatch));
      }
      var expectedHash := H(parsed.body);
      if parsed.entryHash != Some(expectedHash) {
        return Failure(BadLine(n + 1, HashMismatch));
      }
      ChainedExtend(entries, parsed);
      LinesExtend(entries, parsed);
      entries := entries + [parsed];
      previous := expectedHash;
      assert lines[..n + 1] == lines[..n] + [lines[n]];
    }
    if entries == [] {
      return Failure(EmptyLog);
    }
    assert lines[..|lines|] == lines;
    return Success(entries);
  }

  lemma RejectionIsRight(lines: seq<Line>, good: seq<Entry>)
    requires |good| < |lines| && lines[..|good|] == Lines(good) && LineProblem(good, lines[|good|]).Some?
    ensures forall entries :: Chained(entries) ==> Lines(entries) != lines
  {
    forall entries | Chained(entries) ensures Lines(entries) != lines {
      if Lines(entries) == lines {
        assert EntryOk(entries, |good|);
        SamePrefix(entries, good);
      }
    }
  }

  lemma SamePrefix(entries: seq<Entry>, good: seq<Entry>)
    requires |good| <= |entries| && Lines(entries)[..|good|] == Lines(good)
    ensures entries[..|good|] == good
  {
    forall i | 0 <= i < |good| ensures entries[i] == good[i] {
      assert Lines(entries)[..|good|][i] == Object(entries[i]);
    }
  }

  lemma LinesExtend(entries: seq<Entry>, e: Entry)
    ensures Lines(entries + [e]) == Lines(entries) + [Object(e)]
  {
  }

  lemma ChainedExtend(entries: seq<Entry>, e: Entry)
    requires Chained(entries) && LineProblem(entries, Object(e)) == None
    ensures Chained(entries + [e])
  {
    var longer := entries + [e];
    forall i | 0 <= i < |longer| ensures EntryOk(longer, i) {
      assert longer[..i] == entries[..i];
      if i < |entries| {
        assert EntryOk(entries, i);
      } else {
        assert entries[..i] == entries;
      }
    }
  }

  lemma ChainedPrefix(entries: seq<Entry>, n: nat)
    requires Chained(entries) && n <= |entries|
    ensures Chained(entries[..n])
  {
    forall i | 0 <= i < n ensures EntryOk(entries[..n], i) {
      assert EntryOk(entries, i) && entries[..n][..i] == entries[..i];
    }
  }

  // ---------------------------------------------------------------- tamper evidence

  /** The head digest of a valid log determines the whole log. */
  lemma {:induction false} SameHeadSameLog(a: seq<Entry>, b: seq<Entry>)
    requires Chained(a) && Chained(b) && HeadOf(a) == HeadOf(b)
    ensures a == b
    decreases |a|
  {
    if a != [] {
      var m, n := |a| - 1, |b| - 1;
      assert EntryOk(a, m) && EntryOk(b, n);
      assert m == n && a[m] == b[n];
      ChainedPrefix(a, m);
      ChainedPrefix(b, n);
      SameHeadSameLog(a[..m], b[..n]);
      assert a == a[..m] + [a[m]] && b == b[..n] + [b[n]];
    }
  }

  /** Any change to a valid log that leaves it valid changes every later digest. */
  lemma TamperingReachesTheHead(a: seq<Entry>, b: seq<Entry>, i: nat)
    requires Chained(a) && Chained(b) && i < |a| == |b| && a[i] != b[i]
    ensures forall n :: i < n <= |a| ==> HeadOf(a[..n]) != HeadOf(b[..n])
  {
    forall n | i < n <= |a| ensures HeadOf(a[..n]) != HeadOf(b[..n]) {
      assert a[..n][i] != b[..n][i];
      ChainedPrefix(a, n);
      ChainedPrefix(b, n);
      if HeadOf(a[..n]) == HeadOf(b[..n]) {
        SameHeadSameLog(a[..n], b[..n]);
      }
    }
  }

  // ---------------------------------------------------------------- appending

  function Events(entries: seq<Entry>): seq<Option<string>> {
    seq(|entries|, i requires 0 <= i < |entries| => entries[i].body.event)
  }

  function NextEntry(entries: seq<Entry>, event: string, rest: map<string, string>): Entry {
    var body := Body(Some(|entries| + 1), Some(event), Some(HeadOf(entries)), rest);
    Entry(body, Some(H(body)))
  }

  lemma AppendKeepsChain(entries: seq<Entry>, event: string, rest: map<string, string>)
    requires Chained(entries)
    ensures ValidLog(entries + [NextEntry(entries, event, rest)])
    ensures Events(entries + [NextEntry(entries, event, rest)]) == Events(entries) + [Some(event)]
  {
    ChainedExtend(entries, NextEntry(entries, event, rest));
  }

  lemma LinesInjective(a: seq<Entry>, b: seq<Entry>)
    requires Lines(a) == Lines(b)
    ensures a == b
  {
    assert |a| == |Lines(a)| == |Lines(b)| == |b|;
    SamePrefix(a, b);
  }

  /** What a new entry carries: its number, its event, its predecessor's hash, its payload, and its own hash. */
  lemma NextEntryCarries(entries: seq<Entry>, event: string, rest: map<string, string>)
    ensures var entry := NextEntry(entries, event, rest);
      var previous := if entries == [] then Zero else H(entries[|entries| - 1].body);
      && entry.body == Body(Some(|entries| + 1), Some(event), Some(previous), rest)
      && entry.entryHash == Some(H(entry.body))
  {
  }

  /** The log an append starts from: none yet when it creates the file, a valid one otherwise. */
  ghost predicate StartsFrom(lines: Option<seq<Line>>, create: bool, before: seq<Entry>) {
    if create then lines.None? && before == []
    else lines == Some(Lines(before)) && ValidLog(before)
  }

  ghost predicate Expected(expected: Option<seq<Option<string>>>, before: seq<Entry>) {
    expected.Some? ==> Events(before) == expected.value
  }

  datatype AppendError = AlreadyExists | Missing | InvalidChain(error: ChainError) | UnexpectedEvents | SyncFailed

  /** One log file; `lines` is None while the file does not exist. */
  class ReceiptLog {
    var lines: Option<seq<Line>>

    constructor ()
      ensures lines == None
    {
      lines := None;
    }

    /**
     Appends one entry under the file lock.  `synced` is whether the flush after the write succeeds: a
     failed flush is reported although the entry is already in the file.
     */
    method AppendReceipt(event: string, rest: map<string, string>, create: bool,
                         expected: Option<seq<Option<string>>>, synced: bool)
        returns (r: Result<Entry, AppendError>, ghost before: seq<Entry>)
      modifies this
      ensures r.Success? <==> synced && exists e :: StartsFrom(old(lines), create, e) && Expected(expected, e)
      ensures r == Failure(SyncFailed) <==>
        !synced && exists e :: StartsFrom(old(lines), create, e) && Expected(expected, e)
      ensures r == Failure(AlreadyExists) <==> create && old(lines).Some?
      ensures r == Failure(Missing) <==> !create && old(lines).None?
      ensures r.Failure? && r.error.InvalidChain? <==>
        !create && old(lines).Some? && !exists e :: StartsFrom(old(lines), create, e)
      ensures r == Failure(UnexpectedEvents) <==>
        exists e :: StartsFrom(old(lines), create, e) && !Expected(expected, e)
      ensures r.Failure? && !r.error.SyncFailed? ==> lines == old(lines)
      ensures r.Success? || r.error.SyncFailed? ==>
        && StartsFrom(old(lines), create, before) && Expected(expected, before)
        && lines == Some(Lines(before + [NextEntry(before, event, rest)]))
        && ValidLog(before + [NextEntry(before, event, rest)])
      ensures r.Success? ==>
        && r.value == NextEntry(before, event, rest)
        && r.value.body.event == Some(event) && r.value.body.rest == rest
    {
      before := [];
      if create && lines.Some? {
        return Failure(AlreadyExists), [];
      }
      if !create && lines.None? {
        return Failure(Missing), [];
      }
      var entries: seq<Entry> := [];
      if !create {
        var validated := ValidateReceiptChain(lines.value);
        forall e | StartsFrom(lines, create, e) && validated.Success? ensures e == validated.value {
          LinesInjective(e, validated.value);
        }
        if validated.Failure? {
          return Failure(InvalidChain(validated.error)), [];
        }
        entries := validated.value;
      }
      assert StartsFrom(lines, create, entries);
      if expected.Some? && Events(entries) != expected.value {
        return Failure(UnexpectedEvents), entries;
      }
      var entry := NextEntry(entries, event, rest);
      AppendKeepsChain(entries, event, rest);
      LinesExtend(entries, entry);
      lines := Some(Lines(entries) + [Object(entry)]);
      if !synced {
        return Failure(SyncFailed), entries;
      }
      return Success(entry), entries;
    }
  }
}
