/**
 Release environment files: the writer of the rollback drill and the three loaders that read such files.
 A file is its decoded text; `allowed` is the rollback drill's list of supported keys.
 */
module EnvironmentFile {
  import opened Counting
  import opened Partitioning

  // ---------------------------------------------------------------- characters and lines

  /** The separators of the host language's line splitting. */
  predicate IsBreak(c: char) {
    var n := c as int;
    10 <= n <= 13 || 28 <= n <= 30 || n == 0x85 || n == 0x2028 || n == 0x2029
  }

  predicate IsSpace(c: char) {
    var n := c as int;
    IsBreak(c) || n == 9 || n == 31 || n == 32 || n == 0xA0 || n == 0x1680 || 0x2000 <= n <= 0x200A
    || n == 0x202F || n == 0x205F || n == 0x3000
  }

  predicate OneLine(text: string) { forall i :: 0 <= i < |text| ==> !IsBreak(text[i]) }

  function LineEnd(text: string): (n: nat)
    ensures n <= |text| && OneLine(text[..n]) && (n < |text| ==> IsBreak(text[n]))
  {
    if text == "" || IsBreak(text[0]) then 0 else 1 + LineEnd(text[1..])
  }

  function BreakEnd(text: string, n: nat): (end: nat)
    requires n < |text|
    ensures n < end <= |text|
  {
    if text[n] == '\r' && n + 1 < |text| && text[n + 1] == '\n' then n + 2 else n + 1
  }

  function SplitLines(text: string): seq<string>
    decreases |text|
  {
    if text == "" then []
    else
      var n := LineEnd(text);
      if n == |text| then [text] else [text[..n]] + SplitLines(text[BreakEnd(text, n)..])
  }

  function StripLeft(text: string): string {
    if text != "" && IsSpace(text[0]) then StripLeft(text[1..]) else text
  }

  function StripRight(text: string): string {
    if text != "" && IsSpace(text[|text| - 1]) then StripRight(text[..|text| - 1]) else text
  }

  function Strip(text: string): string { StripRight(StripLeft(text)) }

  /** Neither end of the text is blank. */
  predicate Tight(text: string) { text == "" || (!IsSpace(text[0]) && !IsSpace(text[|text| - 1])) }

  lemma {:induction false} StripRightTight(text: string)
    ensures var r := StripRight(text);
      && r <= text && (r != "" ==> !IsSpace(r[|r| - 1]))
      && ((text == "" || !IsSpace(text[|text| - 1])) <==> r == text)
  {
    if text != "" && IsSpace(text[|text| - 1]) {
      StripRightTight(text[..|text| - 1]);
    }
  }

  lemma {:induction false} StripLeftTight(text: string)
    ensures var l := StripLeft(text);
      && |l| <= |text| && l == text[|text| - |l|..] && (l != "" ==> !IsSpace(l[0]))
      && ((text == "" || !IsSpace(text[0])) <==> l == text)
  {
    if text != "" && IsSpace(text[0]) {
      StripLeftTight(text[1..]);
    }
  }

  /** Stripping yields a tight part of the text, and leaves exactly the tight texts alone. */
  lemma StripTight(text: string)
    ensures Tight(Strip(text)) && (Strip(text) == text <==> Tight(text))
    ensures exists i, j :: 0 <= i <= j <= |text| && Strip(text) == text[i..j]
  {
    var left := StripLeft(text);
    StripLeftTight(text);
    StripRightTight(left);
    var i := |text| - |left|;
    assert Strip(text) == text[i..i + |Strip(text)|];
  }

  // ---------------------------------------------------------------- entries

  datatype Loader = RollbackLoader | TrustLoader | ActivationLoader

  datatype EnvironmentError =
    | EmptyFile
    | InvalidLine
    | InvalidKey
    | DuplicateKey
    | InvalidValue
    | InlineSecret
    | UnsupportedKeys
    | UnsafeValue

  const INLINE_SECRET := "CLOVASTUDIO_API_KEY"

  predicate KeyStart(c: char) { 'A' <= c <= 'Z' }

  predicate ValidKey(key: string) {
    key != "" && KeyStart(key[0])
    && forall i :: 0 <= i < |key| ==> KeyStart(key[i]) || '0' <= key[i] <= '9' || key[i] == '_'
  }

  function ReadKey(loader: Loader, text: string): string {
    if loader.ActivationLoader? then text else Strip(text)
  }

  predicate Quoted(text: string) { |text| >= 2 && text[0] == '\'' && text[|text| - 1] == '\'' }

  function Unquoted(text: string): Result<string, EnvironmentError>
    requires Quoted(text)
  {
    var inner := text[1..|text| - 1];
    if '\'' in inner then Failure(InvalidValue) else Success(inner)
  }

  function ReadValue(loader: Loader, text: string): Result<string, EnvironmentError> {
    match loader
    case RollbackLoader => Success(Strip(text))
    case TrustLoader =>
      var value := Strip(text);
      if value != "" && (value[0] == '\'' || value[|value| - 1] == '\'') then
        if Quoted(value) then Unquoted(value) else Failure(InvalidValue)
      else if '\'' in value then Failure(InvalidValue)
      else Success(value)
    case ActivationLoader =>
      if !Quoted(text) then Failure(InvalidValue)
      else
        var value := Unquoted(text);
        if value.Success? && ('\r' in value.value || '\n' in value.value) then Failure(InvalidValue) else value
  }

  /** One line's effect on the entries read so far. */
  function ReadLine(loader: Loader, environment: map<string, string>, raw: string)
    : Result<map<string, string>, EnvironmentError>
  {
    var line := Strip(raw);
    if line == "" || line[0] == '#' then Success(environment)
    else
      match Partition(line)
      case None => Failure(InvalidLine)
      case Some((left, right)) =>
        var key, value := ReadKey(loader, left), ReadValue(loader, right);
        if !ValidKey(key) then Failure(InvalidKey)
        else if key in environment then Failure(if loader.RollbackLoader? then DuplicateKey else InvalidKey)
        else if value.Failure? then Failure(value.error)
        else Success(environment[key := value.value])
  }

  function ReadLines(loader: Loader, environment: map<string, string>, lines: seq<string>)
    : Result<map<string, string>, EnvironmentError>
    decreases |lines|
  {
    if lines == [] then Success(environment)
    else
      match ReadLine(loader, environment, lines[0])
      case Failure(error) => Failure(error)
      case Success(next) => ReadLines(loader, next, lines[1..])
  }

  function Load(loader: Loader, text: string, allowed: set<string>): Result<map<string, string>, EnvironmentError> {
    if text == "" && !loader.RollbackLoader? then Failure(EmptyFile)
    else
      match ReadLines(loader, map[], SplitLines(text))
      case Failure(error) => Failure(error)
      case Success(environment) =>
        if loader.RollbackLoader? && INLINE_SECRET in environment then Failure(InlineSecret)
        else if loader.RollbackLoader? && !(environment.Keys <= allowed) then Failure(UnsupportedKeys)
        else Success(environment)
  }

  method LoadEnvironment(loader: Loader, text: string, allowed: set<string>)
    returns (r: Result<map<string, string>, EnvironmentError>)
    ensures r == Load(loader, text, allowed)
  {
    if text == "" && !loader.RollbackLoader? {
      return Failure(EmptyFile);
    }
    var lines := SplitLines(text);
    var environment: map<string, string> := map[];
    for i := 0 to |lines|
      invariant ReadLines(loader, map[], lines) == ReadLines(loader, environment, lines[i..])
    {
      hide ReadLine, SplitLines;
      var next := ReadLine(loader, environment, lines[i]);
      assert lines[i..][0] == lines[i] && lines[i..][1..] == lines[i + 1..];
      if next.Failure? {
        return Failure(next.error);
      }
      environment := next.value;
    }
    if loader.RollbackLoader? && INLINE_SECRET in environment {
      return Failure(InlineSecret);
    }
    if loader.RollbackLoader? && !(environment.Keys <= allowed) {
      return Failure(UnsupportedKeys);
    }
    r := Success(environment);
  }

  // ---------------------------------------------------------------- the writer

  predicate UnsafeChar(c: char) { c == '\'' || c == '$' || c == '\r' || c == '\n' }

  predicate SafeValue(value: string) { forall i :: 0 <= i < |value| ==> !UnsafeChar(value[i]) }

  predicate Writable(environment: map<string, string>) {
    forall key :: key in environment ==> SafeValue(environment[key])
  }

  /** Every key once; the source takes them in sorted order. */
  ghost predicate Enumerates(keys: seq<string>, environment: map<string, string>) {
    && (forall key :: key in keys <==> key in environment)
    && forall i, j :: 0 <= i < j < |keys| ==> keys[i] != keys[j]
  }

  function Entry(environment: map<string, string>, key: string): string
    requires key in environment
  {
    key + "=" + environment[key]
  }

  function Written(environment: map<string, string>, keys: seq<string>): string
    requires forall key :: key in keys ==> key in environment
  {
    if keys == [] then "" else Entry(environment, keys[0]) + "\n" + Written(environment, keys[1..])
  }

  method WriteEnvironment(environment: map<string, string>, keys: seq<string>)
      returns (r: Result<string, EnvironmentError>)
    requires Enumerates(keys, environment)
    ensures r == if Writable(environment) then Success(Written(environment, keys)) else Failure(UnsafeValue)
  {
    var text := "";
    for i := 0 to |keys|
      invariant Written(environment, keys) == text + Written(environment, keys[i..])
      invariant forall j :: 0 <= j < i ==> SafeValue(environment[keys[j]])
    {
      hide Entry, SafeValue;
      var key := keys[i];
      assert key in keys;
      if !SafeValue(environment[key]) {
        return Failure(UnsafeValue);
      }
      assert keys[i..][0] == key && keys[i..][1..] == keys[i + 1..];
      text := text + (Entry(environment, key) + "\n");
    }
    hide SafeValue;
    assert Written(environment, keys[|keys|..]) == "" && text + "" == text;
    assert Writable(environment) by {
      forall key | key in environment ensures SafeValue(environment[key]) {
        assert key in keys;
      }
    }
    r := Success(text);
  }

  // ---------------------------------------------------------------- what a loader can return

  /** A value a loader without quotes can return. */
  predicate Clean(value: string) { Tight(value) && OneLine(value) }

  predicate Unquotable(text: string) { '\'' !in text }

  lemma {:induction false} LinesOfText(text: string)
    ensures forall line :: line in SplitLines(text) ==> OneLine(line) && (Unquotable(text) ==> Unquotable(line))
    decreases |text|
  {
    if text != "" {
      var n := LineEnd(text);
      if n < |text| {
        LinesOfText(text[BreakEnd(text, n)..]);
      }
    }
  }

  lemma PartOneLine(text: string, i: nat, j: nat)
    requires i <= j <= |text|
    ensures OneLine(text) ==> OneLine(text[i..j])
    ensures Unquotable(text) ==> Unquotable(text[i..j])
  {
  }

  lemma StripParts(text: string)
    ensures OneLine(text) ==> OneLine(Strip(text))
    ensures Unquotable(text) ==> Unquotable(Strip(text))
  {
    StripTight(text);
    var i, j :| 0 <= i <= j <= |text| && Strip(text) == text[i..j];
    PartOneLine(text, i, j);
  }

  lemma ReadValueClean(loader: Loader, text: string)
    requires !loader.ActivationLoader? && OneLine(text)
    requires loader.TrustLoader? ==> Unquotable(text)
    ensures ReadValue(loader, text) == Success(Strip(text)) && Clean(Strip(text))
  {
    StripTight(text);
    StripParts(text);
  }

  ghost predicate Readable(environment: map<string, string>) {
    forall key :: key in environment ==> ValidKey(key) && Clean(environment[key])
  }

  lemma ReadLineReadable(loader: Loader, environment: map<string, string>, raw: string)
    requires !loader.ActivationLoader? && Readable(environment) && OneLine(raw)
    requires loader.TrustLoader? ==> Unquotable(raw)
    requires ReadLine(loader, environment, raw).Success?
    ensures Readable(ReadLine(loader, environment, raw).value)
  {
    var line := Strip(raw);
    StripParts(raw);
    var parts := Partition(line);
    if line != "" && line[0] != '#' && parts.Some? {
      var (left, right) := parts.value;
      assert right == line[|left| + 1..|line|];
      PartOneLine(line, |left| + 1, |line|);
      ReadValueClean(loader, right);
    }
  }

  lemma {:induction false} ReadLinesReadable(loader: Loader, environment: map<string, string>, lines: seq<string>)
    requires !loader.ActivationLoader? && Readable(environment)
    requires forall line :: line in lines ==> OneLine(line) && (loader.TrustLoader? ==> Unquotable(line))
    requires ReadLines(loader, environment, lines).Success?
    ensures Readable(ReadLines(loader, environment, lines).value)
    decreases |lines|
  {
    hide ReadLine, Readable, OneLine, Unquotable;
    if lines != [] {
      ReadLineReadable(loader, environment, lines[0]);
      ReadLinesReadable(loader, ReadLine(loader, environment, lines[0]).value, lines[1..]);
    }
  }

  lemma ReadLineKeys(loader: Loader, environment: map<string, string>, raw: string)
    requires ReadLine(loader, environment, raw).Success?
    requires forall key :: key in environment ==> ValidKey(key)
    ensures forall key :: key in ReadLine(loader, environment, raw).value ==> ValidKey(key)
  {
  }

  lemma {:induction false} ReadLinesKeys(loader: Loader, environment: map<string, string>, lines: seq<string>)
    requires ReadLines(loader, environment, lines).Success?
    requires forall key :: key in environment ==> ValidKey(key)
    ensures forall key :: key in ReadLines(loader, environment, lines).value ==> ValidKey(key)
    decreases |lines|
  {
    hide ReadLine, ValidKey;
    if lines != [] {
      ReadLineKeys(loader, environment, lines[0]);
      ReadLinesKeys(loader, ReadLine(loader, environment, lines[0]).value, lines[1..]);
    }
  }

  // ---------------------------------------------------------------- reading back what was written

  lemma KeyChars(key: string)
    requires ValidKey(key)
    ensures OneLine(key) && Unquotable(key) && '=' !in key && !IsSpace(key[0]) && key[0] != '#' && Tight(key)
  {
  }

  lemma {:induction false} FirstLineEnd(line: string, rest: string)
    requires OneLine(line)
    ensures LineEnd(line + "\n" + rest) == |line|
  {
    var text := line + "\n" + rest;
    if line != "" {
      FirstLineEnd(line[1..], rest);
      assert text[1..] == line[1..] + "\n" + rest && text[0] == line[0];
    }
  }

  lemma FirstLine(line: string, rest: string)
    requires OneLine(line)
    ensures SplitLines(line + "\n" + rest) == [line] + SplitLines(rest)
  {
    var text := line + "\n" + rest;
    FirstLineEnd(line, rest);
    assert text[|line|] == '\n';
    assert text[..|line|] == line && text[|line| + 1..] == rest;
  }

  function Entries(environment: map<string, string>, keys: seq<string>): seq<string>
    requires forall key :: key in keys ==> key in environment
  {
    if keys == [] then [] else [Entry(environment, keys[0])] + Entries(environment, keys[1..])
  }

  lemma EntryOneLine(environment: map<string, string>, key: string)
    requires key in environment && ValidKey(key) && OneLine(environment[key])
    ensures OneLine(Entry(environment, key))
  {
    KeyChars(key);
  }

  lemma {:induction false} WrittenLines(environment: map<string, string>, keys: seq<string>)
    requires forall key :: key in keys ==> key in environment && ValidKey(key) && OneLine(environment[key])
    ensures SplitLines(Written(environment, keys)) == Entries(environment, keys)
  {
    if keys != [] {
      EntryOneLine(environment, keys[0]);
      WrittenLines(environment, keys[1..]);
      FirstLine(Entry(environment, keys[0]), Written(environment, keys[1..]));
    }
  }

  /** The entry of a valid key and a clean, quote-free value is read as itself. */
  lemma ReadEntry(loader: Loader, read: map<string, string>, environment: map<string, string>, key: string)
    requires !loader.ActivationLoader? && key in environment && key !in read
    requires ValidKey(key) && Clean(environment[key]) && (loader.TrustLoader? ==> Unquotable(environment[key]))
    ensures ReadLine(loader, read, Entry(environment, key)) == Success(read[key := environment[key]])
  {
    var line := Entry(environment, key);
    KeyChars(key);
    StripTight(line);
    assert line[0] == key[0];
    assert line[|line| - 1] == if environment[key] == "" then '=' else environment[key][|environment[key]| - 1];
    assert Strip(line) == line;
    PartitionUnique(key, environment[key]);
    StripTight(key);
    StripTight(environment[key]);
    hide Strip, Tight, OneLine, ValidKey, Partition;
    ReadValueClean(loader, environment[key]);
  }

  function Restrict(environment: map<string, string>, keys: seq<string>): map<string, string> {
    map key | key in environment && key in keys :: environment[key]
  }

  ghost predicate Restorable(loader: Loader, environment: map<string, string>, key: string)
    requires key in environment
  {
    ValidKey(key) && Clean(environment[key]) && (loader.TrustLoader? ==> Unquotable(environment[key]))
  }

  lemma RestrictStep(read: map<string, string>, environment: map<string, string>, keys: seq<string>)
    requires keys != [] && keys[0] in environment
    ensures read[keys[0] := environment[keys[0]]] + Restrict(environment, keys[1..]) ==
        read + Restrict(environment, keys)
  {
  }

  lemma {:induction false} ReadEntries(loader: Loader, read: map<string, string>, environment: map<string, string>,
                                       keys: seq<string>)
    requires !loader.ActivationLoader?
    requires forall key :: key in keys ==> key in environment && Restorable(loader, environment, key)
    requires forall i, j :: 0 <= i < j < |keys| ==> keys[i] != keys[j]
    requires forall key :: key in keys ==> key !in read
    ensures ReadLines(loader, read, Entries(environment, keys)) == Success(read + Restrict(environment, keys))
    decreases |keys|
  {
    hide ReadLine, Entry, ValidKey, Clean, Unquotable;
    if keys == [] {
      assert read + Restrict(environment, keys) == read;
    } else {
      var key := keys[0];
      var next := read[key := environment[key]];
      assert Restorable(loader, environment, key);
      ReadEntry(loader, read, environment, key);
      assert forall k :: k in keys[1..] ==> k in keys && k != key;
      RestrictStep(read, environment, keys);
      hide Restorable, Restrict;
      ReadEntries(loader, next, environment, keys[1..]);
      assert Entries(environment, keys)[1..] == Entries(environment, keys[1..]);
    }
  }

  /** The keys that survive a loader's own restrictions. */
  predicate Admits(loader: Loader, environment: map<string, string>, allowed: set<string>) {
    match loader
    case RollbackLoader => INLINE_SECRET !in environment && environment.Keys <= allowed
    case TrustLoader => environment != map[]
    case ActivationLoader => false
  }

  lemma CleanIsRestorable(loader: Loader, environment: map<string, string>, keys: seq<string>)
    requires Enumerates(keys, environment) && Writable(environment) && Readable(environment)
    ensures forall key :: key in keys ==>
      key in environment && Restorable(loader, environment, key) && ValidKey(key) && OneLine(environment[key])
  {
    forall key | key in keys
      ensures key in environment && Restorable(loader, environment, key) && ValidKey(key) && OneLine(environment[key])
    {
      assert SafeValue(environment[key]);
    }
  }

  lemma CleanReadsBack(loader: Loader, environment: map<string, string>, keys: seq<string>, allowed: set<string>)
    requires !loader.ActivationLoader? && Enumerates(keys, environment) && Writable(environment)
    requires Readable(environment) && Admits(loader, environment, allowed)
    ensures Load(loader, Written(environment, keys), allowed) == Success(environment)
  {
    CleanIsRestorable(loader, environment, keys);
    assert map[] + Restrict(environment, keys) == environment;
    hide Writable, Readable, ValidKey, OneLine, Restorable, Written, SplitLines, ReadLines, Entries, Restrict;
    WrittenLines(environment, keys);
    WrittenNonempty(environment, keys);
    ReadEntries(loader, map[], environment, keys);
  }

  lemma WrittenNonempty(environment: map<string, string>, keys: seq<string>)
    requires Enumerates(keys, environment)
    ensures Written(environment, keys) == "" <==> environment == map[]
  {
    if keys == [] {
      assert forall key :: key !in environment;
    } else {
      assert keys[0] in environment;
    }
  }

  lemma {:induction false} WrittenUnquotable(environment: map<string, string>, keys: seq<string>)
    requires forall key :: key in keys ==> key in environment && ValidKey(key) && SafeValue(environment[key])
    ensures Unquotable(Written(environment, keys))
  {
    if keys != [] {
      KeyChars(keys[0]);
      WrittenUnquotable(environment, keys[1..]);
    }
  }

  lemma ReadBackIsClean(loader: Loader, environment: map<string, string>, keys: seq<string>, allowed: set<string>)
    requires !loader.ActivationLoader? && Enumerates(keys, environment) && Writable(environment)
    requires Load(loader, Written(environment, keys), allowed) == Success(environment)
    ensures Readable(environment) && Admits(loader, environment, allowed)
  {
    var text := Written(environment, keys);
    var lines := SplitLines(text);
    hide SplitLines, ReadLines, Written, ReadLine, OneLine, Unquotable, Clean, ValidKey;
    ReadLinesKeys(loader, map[], lines);
    LinesOfText(text);
    if loader.TrustLoader? {
      WrittenUnquotable(environment, keys);
      WrittenNonempty(environment, keys);
    }
    ReadLinesReadable(loader, map[], lines);
  }

  /**
   Whatever the writer accepts reads back as itself exactly when every key is well-formed and admitted and every
   value is stripped and on one line, where the line separators are all those of the loaders' line splitting.
   */
  lemma RoundTrip(loader: Loader, environment: map<string, string>, keys: seq<string>, allowed: set<string>)
    requires !loader.ActivationLoader? && Enumerates(keys, environment) && Writable(environment)
    ensures Load(loader, Written(environment, keys), allowed) == Success(environment) <==>
      Readable(environment) && Admits(loader, environment, allowed)
  {
    hide Load, Readable, Admits, Written, Writable;
    if Readable(environment) && Admits(loader, environment, allowed) {
      CleanReadsBack(loader, environment, keys, allowed);
    }
    if Load(loader, Written(environment, keys), allowed) == Success(environment) {
      ReadBackIsClean(loader, environment, keys, allowed);
    }
  }

  // ---------------------------------------------------------------- the snapshot of a target

  const BINDING_HOST_FILE := "FINANCE_DEPLOYMENT_BINDING_HOST_FILE"

  /** A snapshot is a loaded environment whose binding file is replaced. */
  function Snapshot(environment: map<string, string>, path: string): map<string, string> {
    environment[BINDING_HOST_FILE := path]
  }

  /** Whatever the rollback loader returns is well-formed, stripped, on one line and admitted. */
  lemma LoadedIsReadable(text: string, allowed: set<string>)
    requires Load(RollbackLoader, text, allowed).Success?
    ensures Readable(Load(RollbackLoader, text, allowed).value)
    ensures Admits(RollbackLoader, Load(RollbackLoader, text, allowed).value, allowed)
  {
    LinesOfText(text);
    ReadLinesReadable(RollbackLoader, map[], SplitLines(text));
  }

  lemma SnapshotFacts(environment: map<string, string>, path: string, allowed: set<string>)
    requires Readable(environment) && Admits(RollbackLoader, environment, allowed) && BINDING_HOST_FILE in allowed
    ensures var snapshot := Snapshot(environment, path);
      && (Readable(snapshot) <==> Clean(path))
      && (Writable(snapshot) <==> SafeValue(path) && Writable(environment - {BINDING_HOST_FILE}))
      && Admits(RollbackLoader, snapshot, allowed) && Admits(TrustLoader, snapshot, allowed)
  {
    hide Clean, SafeValue;
    var snapshot, rest := Snapshot(environment, path), environment - {BINDING_HOST_FILE};
    assert ValidKey(BINDING_HOST_FILE);
    assert BINDING_HOST_FILE != INLINE_SECRET;
    assert snapshot[BINDING_HOST_FILE] == path;
    assert forall key :: key in rest ==> key in snapshot && snapshot[key] == rest[key];
    assert forall key :: key in snapshot && key != BINDING_HOST_FILE ==> key in rest && snapshot[key] == rest[key];
  }

  /**
   The drill's snapshot: a loaded environment, written again with the path of the copied binding, is accepted by
   the writer and reads back as itself with either loader exactly when the path is free of quotes, dollar signs
   and every line separator and has no outer blanks, and the other values hold no quote or dollar sign.
   */
  lemma SnapshotReadsBack(loader: Loader, text: string, path: string, keys: seq<string>, allowed: set<string>)
    requires !loader.ActivationLoader? && BINDING_HOST_FILE in allowed
    requires Load(RollbackLoader, text, allowed).Success?
    requires Enumerates(keys, Snapshot(Load(RollbackLoader, text, allowed).value, path))
    ensures var environment := Load(RollbackLoader, text, allowed).value;
      var snapshot := Snapshot(environment, path);
      Writable(snapshot) && Load(loader, Written(snapshot, keys), allowed) == Success(snapshot) <==>
        SafeValue(path) && Clean(path) && Writable(environment - {BINDING_HOST_FILE})
  {
    var environment := Load(RollbackLoader, text, allowed).value;
    var snapshot := Snapshot(environment, path);
    LoadedIsReadable(text, allowed);
    hide Load, Readable, Admits, Written, Writable, Clean, SafeValue, Snapshot;
    SnapshotFacts(environment, path, allowed);
    if Writable(snapshot) {
      RoundTrip(loader, snapshot, keys, allowed);
    }
  }

  /** A path with a vertical tab is written, and neither loader reads it back. */
  lemma VerticalTabIsLost(loader: Loader, allowed: set<string>)
    requires !loader.ActivationLoader? && BINDING_HOST_FILE in allowed
    ensures Load(RollbackLoader, "", allowed) == Success(map[])
    ensures var lost, fine := Snapshot(map[], "/a\U{000B}b"), Snapshot(map[], "/ab");
      var keys := [BINDING_HOST_FILE];
      && Enumerates(keys, lost) && Writable(lost) && Load(loader, Written(lost, keys), allowed) != Success(lost)
      && Enumerates(keys, fine) && Writable(fine) && Load(loader, Written(fine, keys), allowed) == Success(fine)
  {
    var lost, fine, keys := "/a\U{000B}b", "/ab", [BINDING_HOST_FILE];
    assert IsBreak(lost[2]);
    assert SafeValue(lost) && SafeValue(fine) && Clean(fine);
    assert Readable(map[]) && Writable(map[] - {BINDING_HOST_FILE});
    assert Load(RollbackLoader, "", allowed) == Success(map[]);
    SnapshotFacts(map[], lost, allowed);
    SnapshotFacts(map[], fine, allowed);
    hide Load, Written, Clean, SafeValue;
    SnapshotReadsBack(loader, "", lost, keys, allowed);
    SnapshotReadsBack(loader, "", fine, keys, allowed);
  }

  // ---------------------------------------------------------------- the activation loader

  lemma StripEntry(key: string, rest: string)
    requires ValidKey(key)
    ensures Strip(key + "=" + rest) == key + "=" + StripRight(rest)
  {
    var line := key + "=" + rest;
    KeyChars(key);
    StripLeftTight(line);
    assert line[0] == key[0];
    StripRightEntry(key + "=", rest);
  }

  lemma {:induction false} StripRightEntry(head: string, rest: string)
    requires head != "" && !IsSpace(head[|head| - 1])
    ensures StripRight(head + rest) == head + StripRight(rest)
  {
    if rest == "" {
      assert head + rest == head;
    } else if IsSpace(rest[|rest| - 1]) {
      StripRightEntry(head, rest[..|rest| - 1]);
      assert (head + rest)[..|head + rest| - 1] == head + rest[..|rest| - 1];
    }
  }

  lemma FirstLineOfEntry(key: string, rest: string)
    requires ValidKey(key)
    ensures var lines := SplitLines(key + "=" + rest);
      lines != [] && exists tail :: tail <= rest && lines[0] == key + "=" + tail
  {
    var text := key + "=" + rest;
    KeyChars(key);
    var n := LineEnd(text);
    assert forall i :: 0 <= i <= |key| ==> text[i] == if i < |key| then key[i] else '=';
    assert forall i :: 0 <= i <= |key| ==> !IsBreak(text[i]);
    var tail := rest[..n - |key| - 1];
    assert text[..n] == key + "=" + tail;
    assert tail <= rest;
    assert SplitLines(text)[0] == text[..n];
  }

  lemma {:induction false} SafeTail(value: string, text: string, tail: string)
    requires SafeValue(value) && Unquotable(text) && tail <= value + "\n" + text
    ensures Unquotable(tail)
  {
  }

  /** The activation loader, which insists on quotes, rejects every nonempty file of the rollback writer. */
  lemma ActivationRejectsWriter(environment: map<string, string>, keys: seq<string>, allowed: set<string>)
    requires Enumerates(keys, environment) && Writable(environment) && environment != map[]
    requires forall key :: key in environment ==> ValidKey(key)
    ensures Load(ActivationLoader, Written(environment, keys), allowed) == Failure(InvalidValue)
  {
    WrittenNonempty(environment, keys);
    var key := keys[0];
    var rest := environment[key] + "\n" + Written(environment, keys[1..]);
    WrittenUnquotable(environment, keys[1..]);
    assert Written(environment, keys) == key + "=" + rest;
    FirstLineOfEntry(key, rest);
    var lines := SplitLines(key + "=" + rest);
    var tail :| tail <= rest && lines[0] == key + "=" + tail;
    SafeTail(environment[key], Written(environment, keys[1..]), tail);
    StripEntry(key, tail);
    StripRightTight(tail);
    PartitionUnique(key, StripRight(tail));
    KeyChars(key);
    hide SplitLines, Written, StripRight, Strip, Partition, ValidKey;
    assert Strip(lines[0])[0] == key[0];
    assert !Quoted(StripRight(tail));
    assert ReadLine(ActivationLoader, map[], lines[0]) == Failure(InvalidValue);
  }

  // ---------------------------------------------------------------- the small languages, spelled out

  /** The separators at which a file is split into lines. */
  lemma Separators(c: char)
    ensures IsBreak(c) <==>
      c in {'\n', '\r', '\U{000B}', '\U{000C}', '\U{001C}', '\U{001D}', '\U{001E}', '\U{0085}', '\U{2028}',
            '\U{2029}'}
  {
  }

  /** The blanks that stripping removes: the separators, and the spaces that are none. */
  lemma Blanks(c: char)
    ensures IsSpace(c) <==>
      || IsBreak(c)
      || c in {'\t', ' ', '\U{001F}', '\U{00A0}', '\U{1680}', '\U{2000}', '\U{2001}', '\U{2002}', '\U{2003}',
               '\U{2004}', '\U{2005}', '\U{2006}', '\U{2007}', '\U{2008}', '\U{2009}', '\U{200A}', '\U{202F}',
               '\U{205F}', '\U{3000}'}
  {
  }

  /** A carriage return and newline end one line, not two. */
  lemma ReturnNewline(line: string, rest: string)
    requires OneLine(line)
    ensures SplitLines(line + "\r\n" + rest) == [line] + SplitLines(rest)
  {
    var text := line + "\r\n" + rest;
    EndsAtBreak(line, "\r\n" + rest);
    assert text == line + ("\r\n" + rest);
    assert text[|line|] == '\r' && text[|line| + 1] == '\n';
    assert text[..|line|] == line && text[|line| + 2..] == rest;
  }

  lemma {:induction false} EndsAtBreak(line: string, rest: string)
    requires OneLine(line) && rest != "" && IsBreak(rest[0])
    ensures LineEnd(line + rest) == |line|
  {
    if line == "" {
      assert line + rest == rest;
    } else {
      EndsAtBreak(line[1..], rest);
      assert (line + rest)[1..] == line[1..] + rest && (line + rest)[0] == line[0];
    }
  }

  /** The writer refuses a value exactly when it holds a quote, a dollar sign, a carriage return or a newline. */
  lemma SafeSpelled(value: string)
    ensures SafeValue(value) <==> '\'' !in value && '$' !in value && '\r' !in value && '\n' !in value
  {
    if !SafeValue(value) {
      var i :| 0 <= i < |value| && UnsafeChar(value[i]);
      assert value[i] in value;
    }
  }

  lemma QuotedValue(loader: Loader, value: string)
    requires !loader.RollbackLoader? && '\'' !in value
    requires loader.ActivationLoader? ==> '\r' !in value && '\n' !in value
    ensures ReadValue(loader, "'" + value + "'") == Success(value)
  {
    var quoted := "'" + value + "'";
    assert |quoted| == |value| + 2 && quoted[0] == '\'' && quoted[|quoted| - 1] == '\'';
    assert quoted[1..|quoted| - 1] == value;
    StripTight(quoted);
    hide Strip;
  }

  /** A quoted value is read as what stands between the quotes, by the trust and the activation loader alike. */
  lemma QuotedReads(loader: Loader, read: map<string, string>, key: string, value: string)
    requires !loader.RollbackLoader? && ValidKey(key) && key !in read && '\'' !in value
    requires loader.ActivationLoader? ==> '\r' !in value && '\n' !in value
    ensures ReadLine(loader, read, key + "=" + ("'" + value + "'")) == Success(read[key := value])
  {
    var quoted := "'" + value + "'";
    var line := key + "=" + quoted;
    KeyChars(key);
    StripTight(key);
    QuotedValue(loader, value);
    PartitionUnique(key, quoted);
    hide ReadValue, Partition, ValidKey;
    assert line[0] == key[0] && line[|line| - 1] == '\'';
    StripTight(line);
    hide Strip;
  }

  /** A value with one quote at an end and none at the other is refused by both. */
  lemma HalfQuotedFails(loader: Loader, value: string)
    requires !loader.RollbackLoader? && Tight(value) && '\'' in value && !Quoted(value)
    ensures ReadValue(loader, value) == Failure(InvalidValue)
  {
    StripTight(value);
  }

  /** What a loader skips and what it refuses, line by line. */
  lemma LineRefusals(loader: Loader, read: map<string, string>, line: string, key: string, text: string)
    requires Tight(line)
    ensures line == "" || line[0] == '#' ==> ReadLine(loader, read, line) == Success(read)
    ensures line != "" && line[0] != '#' && '=' !in line ==> ReadLine(loader, read, line) == Failure(InvalidLine)
    ensures line == key + "=" + text && ValidKey(key) && key in read ==>
      ReadLine(loader, read, line) == Failure(if loader.RollbackLoader? then DuplicateKey else InvalidKey)
    ensures line == key + "=" + text && Tight(key) && '=' !in key && !ValidKey(key) && line[0] != '#' ==>
      ReadLine(loader, read, line) == Failure(InvalidKey)
  {
    StripTight(line);
    StripTight(key);
    if line == key + "=" + text && '=' !in key {
      PartitionUnique(key, text);
    }
    if ValidKey(key) {
      KeyChars(key);
    }
    hide Strip, ReadValue, Tight;
  }

  /** A key is upper-case letters, digits and underscores, the first a letter. */
  lemma KeyPattern(key: string)
    ensures ValidKey(key) <==>
      && key != "" && key[0] != '_' && !('0' <= key[0] <= '9')
      && forall i :: 0 <= i < |key| ==>
           key[i] in {'A', 'B', 'C', 'D', 'E', 'F', 'G', 'H', 'I', 'J', 'K', 'L', 'M', 'N', 'O', 'P',
                      'Q', 'R', 'S', 'T', 'U', 'V', 'W', 'X', 'Y', 'Z', '0', '1', '2', '3', '4', '5',
                      '6', '7', '8', '9', '_'}
  {
  }

  /**
   When a file whose lines read is returned: only the trust and activation loaders refuse it for being empty, only
   the rollback loader for the secret or another key that is not admitted.
   */
  lemma FileAccepted(loader: Loader, text: string, allowed: set<string>, environment: map<string, string>)
    requires ReadLines(loader, map[], SplitLines(text)) == Success(environment)
    ensures Load(loader, text, allowed).Success? <==>
      if loader.RollbackLoader?
      then "CLOVASTUDIO_API_KEY" !in environment && forall key :: key in environment ==> key in allowed
      else text != ""
    ensures Load(loader, text, allowed).Success? ==> Load(loader, text, allowed).value == environment
  {
  }
}
