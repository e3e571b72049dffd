/** The Compose arguments the activation helper lets through, as a scanner and as a grammar. */
module ComposeArguments {
  import opened Counting

  /** An option language: bare flags, options that take the next argument, options that take `=value`. */
  datatype Grammar = Grammar(flags: set<string>, valued: set<string>, assignable: set<string>)

  const GlobalGrammar := Grammar({}, {"--ansi", "--progress"}, {})

  const UpGrammar := Grammar(
    {"-d", "--detach", "--wait", "--remove-orphans", "--quiet-pull", "--timestamps", "--no-color", "--yes",
     "--no-build", "--force-recreate"},
    {"--wait-timeout", "--timeout", "--pull"},
    {"--wait-timeout", "--timeout", "--pull"})

  const RequiredFlags := ["--wait", "--no-build", "--force-recreate"]

  predicate ValidValue(argument: string) { argument != "" && argument[0] != '-' }

  predicate StartsWith(text: string, prefix: string) { |prefix| <= |text| && text[..|prefix|] == prefix }

  predicate IsAssignment(g: Grammar, argument: string) {
    exists name :: name in g.assignable && StartsWith(argument, name + "=")
  }

  // ---------------------------------------------------------------- the scanner

  /** What is left to scan is acceptable, given whether the previous argument still wants its value. */
  predicate Scans(g: Grammar, arguments: seq<string>, expectsValue: bool)
    decreases |arguments|
  {
    if arguments == [] then !expectsValue
    else if expectsValue then ValidValue(arguments[0]) && Scans(g, arguments[1..], false)
    else if arguments[0] in g.flags then Scans(g, arguments[1..], false)
    else if arguments[0] in g.valued then Scans(g, arguments[1..], true)
    else IsAssignment(g, arguments[0]) && Scans(g, arguments[1..], false)
  }

  method ScanOptions(g: Grammar, arguments: seq<string>) returns (ok: bool)
    ensures ok == Scans(g, arguments, false)
  {
    var expectsValue := false;
    for i := 0 to |arguments|
      invariant Scans(g, arguments, false) == Scans(g, arguments[i..], expectsValue)
    {
      var argument := arguments[i];
      assert arguments[i..][1..] == arguments[i + 1..];
      if expectsValue {
        if !ValidValue(argument) {
          return false;
        }
        expectsValue := false;
      } else if argument in g.flags {
        expectsValue := false;
      } else if argument in g.valued {
        expectsValue := true;
      } else if !IsAssignment(g, argument) {
        return false;
      }
    }
    return !expectsValue;
  }

  function Occurrences(arguments: seq<string>, word: string): nat {
    if arguments == [] then 0
    else (if arguments[0] == word then 1 else 0) + Occurrences(arguments[1..], word)
  }

  datatype ComposeError = NotExactlyOneUp | InvalidGlobalOption | InvalidUpOption | MissingRequired(flag: string)

  method ValidateComposeArguments(arguments: seq<string>) returns (error: Option<ComposeError>)
    ensures error.None? <==> InGrammar(arguments)
    ensures error == Some(NotExactlyOneUp) <==> Occurrences(arguments, "up") != 1
  {
    if Occurrences(arguments, "up") != 1 {
      GrammarHasOneUp(arguments);
      return Some(NotExactlyOneUp);
    }
    SomeUp(arguments);
    var up := 0;
    while arguments[up] != "up"
      invariant up < |arguments| && exists i :: up <= i < |arguments| && arguments[i] == "up"
      invariant forall i :: 0 <= i < up ==> arguments[i] != "up"
      decreases |arguments| - up
    {
      up := up + 1;
    }
    var options := arguments[up + 1..];
    ScannerIsGrammar(arguments, up);
    var ok := ScanOptions(GlobalGrammar, arguments[..up]);
    if !ok {
      return Some(InvalidGlobalOption);
    }
    ok := ScanOptions(UpGrammar, options);
    if !ok {
      return Some(InvalidUpOption);
    }
    for i := 0 to |RequiredFlags|
      invariant forall j :: 0 <= j < i ==> RequiredFlags[j] in options
    {
      var flag := RequiredFlags[i];
      if flag !in options {
        assert flag in RequiredFlags;
        return Some(MissingRequired(flag));
      }
    }
    return None;
  }

  // ---------------------------------------------------------------- the grammar

  datatype Item = Flag(name: string) | Valued(option: string, value: string) | Assigned(text: string)

  predicate ItemOk(g: Grammar, item: Item) {
    match item
    case Flag(name) => name in g.flags
    case Valued(option, value) => option in g.valued && option !in g.flags && ValidValue(value)
    case Assigned(text) => text !in g.flags && text !in g.valued && IsAssignment(g, text)
  }

  function RenderItem(item: Item): seq<string> {
    match item
    case Flag(name) => [name]
    case Valued(option, value) => [option, value]
    case Assigned(text) => [text]
  }

  function Render(items: seq<Item>): seq<string> {
    if items == [] then [] else RenderItem(items[0]) + Render(items[1..])
  }

  ghost predicate Parses(g: Grammar, items: seq<Item>, arguments: seq<string>) {
    Render(items) == arguments && forall i :: 0 <= i < |items| ==> ItemOk(g, items[i])
  }

  predicate Plain(item: Item) { !item.Valued? || item.value != "up" }

  /**
   Global options with their values, one `up`, then up options, where no value spells `up` and the
   three required flags stand in flag position.
   */
  ghost predicate GrammarSplit(arguments: seq<string>, globals: seq<Item>, options: seq<Item>) {
    && (forall i :: 0 <= i < |globals| ==> ItemOk(GlobalGrammar, globals[i]))
    && (forall i :: 0 <= i < |options| ==> ItemOk(UpGrammar, options[i]))
    && arguments == Render(globals) + ["up"] + Render(options)
    && (forall i :: 0 <= i < |globals| ==> Plain(globals[i]))
    && (forall i :: 0 <= i < |options| ==> Plain(options[i]))
    && (forall flag :: flag in RequiredFlags ==> Flag(flag) in options)
  }

  ghost predicate InGrammar(arguments: seq<string>) {
    exists globals, options :: GrammarSplit(arguments, globals, options)
  }

  /** Scanning succeeds exactly on the renderings of well-formed items. */
  lemma {:induction false} ScansParses(g: Grammar, arguments: seq<string>) returns (items: seq<Item>)
    requires Scans(g, arguments, false)
    ensures Parses(g, items, arguments)
    decreases |arguments|
  {
    if arguments == [] {
      items := [];
    } else if arguments[0] in g.flags {
      var rest := ScansParses(g, arguments[1..]);
      items := [Flag(arguments[0])] + rest;
      assert arguments == [arguments[0]] + arguments[1..];
    } else if arguments[0] in g.valued {
      assert Scans(g, arguments[1..], true);
      assert arguments[1..][1..] == arguments[2..];
      var rest := ScansParses(g, arguments[2..]);
      items := [Valued(arguments[0], arguments[1])] + rest;
      assert arguments == [arguments[0], arguments[1]] + arguments[2..];
    } else {
      var rest := ScansParses(g, arguments[1..]);
      items := [Assigned(arguments[0])] + rest;
      assert arguments == [arguments[0]] + arguments[1..];
    }
  }

  lemma {:induction false} ParsesScans(g: Grammar, items: seq<Item>)
    requires forall i :: 0 <= i < |items| ==> ItemOk(g, items[i])
    ensures Scans(g, Render(items), false)
    decreases |items|
  {
    if items != [] {
      ParsesScans(g, items[1..]);
      var arguments := Render(items);
      assert ItemOk(g, items[0]);
      match items[0]
      case Flag(_) => assert arguments[1..] == Render(items[1..]);
      case Assigned(_) => assert arguments[1..] == Render(items[1..]);
      case Valued(_, _) => assert arguments[1..][1..] == Render(items[1..]);
    }
  }

  // ---------------------------------------------------------------- words of a rendering

  lemma {:induction false} OccurrencesConcat(a: seq<string>, b: seq<string>, word: string)
    ensures Occurrences(a + b, word) == Occurrences(a, word) + Occurrences(b, word)
  {
    if a == [] {
      assert a + b == b;
    } else {
      assert (a + b)[1..] == a[1..] + b;
      OccurrencesConcat(a[1..], b, word);
    }
  }

  lemma {:induction false} NoOccurrences(arguments: seq<string>, word: string)
    ensures Occurrences(arguments, word) == 0 <==> word !in arguments
  {
    if arguments != [] {
      NoOccurrences(arguments[1..], word);
      assert arguments == [arguments[0]] + arguments[1..];
    }
  }

  lemma SomeUp(arguments: seq<string>)
    requires Occurrences(arguments, "up") == 1
    ensures exists i :: 0 <= i < |arguments| && arguments[i] == "up"
  {
    NoOccurrences(arguments, "up");
  }

  /** Neither an option name nor an assignment spells `up`. */
  lemma NamesAreNotUp(g: Grammar, item: Item)
    requires g == GlobalGrammar || g == UpGrammar
    requires ItemOk(g, item)
    ensures "up" in RenderItem(item) <==> !Plain(item)
  {
    match item
    case Flag(name) => assert name[0] == '-';
    case Valued(option, value) => assert option[0] == '-';
    case Assigned(text) =>
      var name :| name in g.assignable && StartsWith(text, name + "=");
      assert text[0] == (name + "=")[0] == '-';
  }

  lemma {:induction false} PlainHasNoUp(g: Grammar, items: seq<Item>)
    requires g == GlobalGrammar || g == UpGrammar
    requires forall i :: 0 <= i < |items| ==> ItemOk(g, items[i])
    ensures "up" !in Render(items) <==> forall i :: 0 <= i < |items| ==> Plain(items[i])
    decreases |items|
  {
    if items != [] {
      NamesAreNotUp(g, items[0]);
      PlainHasNoUp(g, items[1..]);
      assert items == [items[0]] + items[1..];
    }
  }

  /** A required flag in the rendering stands in flag position: no value may start with a dash. */
  lemma {:induction false} RequiredInFlagPosition(items: seq<Item>, flag: string)
    requires flag in RequiredFlags
    requires forall i :: 0 <= i < |items| ==> ItemOk(UpGrammar, items[i])
    ensures flag in Render(items) <==> Flag(flag) in items
    decreases |items|
  {
    if items != [] {
      RequiredInFlagPosition(items[1..], flag);
      assert items == [items[0]] + items[1..];
      assert ItemOk(UpGrammar, items[0]);
      assert flag[0] == '-';
      assert flag in UpGrammar.flags;
    }
  }

  lemma GrammarHasOneUp(arguments: seq<string>)
    ensures InGrammar(arguments) ==> Occurrences(arguments, "up") == 1
  {
    if globals, options :| GrammarSplit(arguments, globals, options) {
      PlainHasNoUp(GlobalGrammar, globals);
      PlainHasNoUp(UpGrammar, options);
      NoOccurrences(Render(globals), "up");
      NoOccurrences(Render(options), "up");
      OccurrencesConcat(Render(globals) + ["up"], Render(options), "up");
      OccurrencesConcat(Render(globals), ["up"], "up");
    }
  }

  ghost predicate Accepts(prefix: seq<string>, suffix: seq<string>) {
    && Scans(GlobalGrammar, prefix, false) && Scans(UpGrammar, suffix, false)
    && forall flag :: flag in RequiredFlags ==> flag in suffix
  }

  lemma GrammarAccepts(prefix: seq<string>, suffix: seq<string>, globals: seq<Item>, options: seq<Item>)
    requires "up" !in prefix && GrammarSplit(prefix + ["up"] + suffix, globals, options)
    ensures Accepts(prefix, suffix)
  {
    PlainHasNoUp(GlobalGrammar, globals);
    SplitAtUp(Render(globals), Render(options), prefix, suffix);
    ParsesScans(GlobalGrammar, globals);
    ParsesScans(UpGrammar, options);
    forall flag | flag in RequiredFlags ensures flag in suffix {
      RequiredInFlagPosition(options, flag);
    }
  }

  lemma AcceptsGrammar(prefix: seq<string>, suffix: seq<string>)
    requires "up" !in prefix && "up" !in suffix && Accepts(prefix, suffix)
    ensures InGrammar(prefix + ["up"] + suffix)
  {
    var globals := ScansParses(GlobalGrammar, prefix);
    var options := ScansParses(UpGrammar, suffix);
    PlainHasNoUp(GlobalGrammar, globals);
    PlainHasNoUp(UpGrammar, options);
    forall flag | flag in RequiredFlags ensures Flag(flag) in options {
      RequiredInFlagPosition(options, flag);
    }
    assert GrammarSplit(prefix + ["up"] + suffix, globals, options);
  }

  /** With one `up`, the two scans and the three membership tests decide the grammar. */
  lemma ScannerIsGrammar(arguments: seq<string>, up: nat)
    requires up < |arguments| && arguments[up] == "up" && Occurrences(arguments, "up") == 1
    ensures InGrammar(arguments) <==> Accepts(arguments[..up], arguments[up + 1..])
  {
    var prefix, suffix := arguments[..up], arguments[up + 1..];
    assert arguments == prefix + ["up"] + suffix;
    OccurrencesConcat(prefix + ["up"], suffix, "up");
    OccurrencesConcat(prefix, ["up"], "up");
    NoOccurrences(prefix, "up");
    NoOccurrences(suffix, "up");
    hide Accepts, GrammarSplit;
    if globals, options :| GrammarSplit(arguments, globals, options) {
      GrammarAccepts(prefix, suffix, globals, options);
    }
    if Accepts(prefix, suffix) {
      AcceptsGrammar(prefix, suffix);
    }
  }

  lemma SplitAtUp(a: seq<string>, b: seq<string>, c: seq<string>, d: seq<string>)
    requires "up" !in a && "up" !in c && a + ["up"] + b == c + ["up"] + d
    ensures a == c && b == d
  {
    var whole := a + ["up"] + b;
    assert whole[|a|] == "up" && whole[|c|] == "up";
    assert forall i :: 0 <= i < |a| ==> whole[i] == a[i];
    assert forall i :: 0 <= i < |c| ==> whole[i] == c[i];
    assert |a| == |c|;
    assert a == whole[..|a|] && c == whole[..|a|];
    assert b == whole[|a| + 1..] && d == whole[|a| + 1..];
  }

  // ---------------------------------------------------------------- the options, spelled out

  predicate UpFlag(word: string) {
    word in {"-d", "--detach", "--wait", "--remove-orphans", "--quiet-pull", "--timestamps", "--no-color", "--yes",
             "--no-build", "--force-recreate"}
  }

  predicate UpValued(word: string) { word in {"--wait-timeout", "--timeout", "--pull"} }

  predicate UpAssigned(word: string) {
    StartsWith(word, "--wait-timeout=") || StartsWith(word, "--timeout=") || StartsWith(word, "--pull=")
  }

  predicate HasRequired(flags: seq<string>) {
    "--wait" in flags && "--no-build" in flags && "--force-recreate" in flags
  }

  lemma AssignmentSpelled(word: string)
    ensures IsAssignment(UpGrammar, word) <==> UpAssigned(word)
    ensures !IsAssignment(GlobalGrammar, word)
  {
    if UpAssigned(word) {
      var name := if StartsWith(word, "--wait-timeout=") then "--wait-timeout"
                  else if StartsWith(word, "--timeout=") then "--timeout" else "--pull";
      assert name in UpGrammar.assignable && StartsWith(word, name + "=");
    }
  }

  lemma {:induction false} OptionWords(g: Grammar, items: seq<Item>, word: string)
    requires forall i :: 0 <= i < |items| ==> ItemOk(g, items[i])
    requires word in Render(items) && word != "" && word[0] == '-'
    ensures word in g.flags || word in g.valued || IsAssignment(g, word)
    decreases |items|
  {
    assert ItemOk(g, items[0]);
    if word !in RenderItem(items[0]) {
      OptionWords(g, items[1..], word);
    }
  }

  lemma Sides(arguments: seq<string>, a: seq<string>, b: seq<string>, up: nat, i: nat)
    requires arguments == a + ["up"] + b && "up" !in a && "up" !in b
    requires up < |arguments| && arguments[up] == "up" && i < |arguments|
    ensures i < up ==> arguments[i] in a
    ensures i > up ==> arguments[i] in b
  {
    assert up == |a|;
    if i < up {
      assert arguments[i] == a[i];
    } else if i > up {
      assert arguments[i] == b[i - |a| - 1];
    }
  }

  /** No option but the listed ones is let through: before `up` two, after it the flags and the valued options. */
  lemma OnlyListedOptions(arguments: seq<string>, up: nat, i: nat)
    requires InGrammar(arguments) && up < |arguments| && arguments[up] == "up"
    requires i < |arguments| && arguments[i] != "" && arguments[i][0] == '-'
    ensures i < up ==> arguments[i] in {"--ansi", "--progress"}
    ensures i > up ==> UpFlag(arguments[i]) || UpValued(arguments[i]) || UpAssigned(arguments[i])
  {
    var globals, options :| GrammarSplit(arguments, globals, options);
    SplitWords(arguments, globals, options);
    hide *;
    Sides(arguments, Render(globals), Render(options), up, i);
    if i < up {
      ListedGlobals(globals, arguments[i]);
    } else if i > up {
      ListedOptions(options, arguments[i]);
    }
  }

  lemma SplitWords(arguments: seq<string>, globals: seq<Item>, options: seq<Item>)
    requires GrammarSplit(arguments, globals, options)
    ensures arguments == Render(globals) + ["up"] + Render(options)
    ensures "up" !in Render(globals) && "up" !in Render(options)
    ensures forall i :: 0 <= i < |globals| ==> ItemOk(GlobalGrammar, globals[i])
    ensures forall i :: 0 <= i < |options| ==> ItemOk(UpGrammar, options[i])
  {
    hide Render, ItemOk;
    PlainHasNoUp(GlobalGrammar, globals);
    PlainHasNoUp(UpGrammar, options);
  }

  lemma ListedGlobals(globals: seq<Item>, word: string)
    requires forall i :: 0 <= i < |globals| ==> ItemOk(GlobalGrammar, globals[i])
    requires word in Render(globals) && word != "" && word[0] == '-'
    ensures word in {"--ansi", "--progress"}
  {
    hide Render, ItemOk;
    OptionWords(GlobalGrammar, globals, word);
    AssignmentSpelled(word);
  }

  lemma ListedOptions(options: seq<Item>, word: string)
    requires forall i :: 0 <= i < |options| ==> ItemOk(UpGrammar, options[i])
    requires word in Render(options) && word != "" && word[0] == '-'
    ensures UpFlag(word) || UpValued(word) || UpAssigned(word)
  {
    hide Render, ItemOk, IsAssignment, UpFlag, UpValued, UpAssigned;
    OptionWords(UpGrammar, options, word);
    NamesSpelled(word);
    AssignmentSpelled(word);
  }

  lemma NamesSpelled(word: string)
    ensures word in UpGrammar.flags <==> UpFlag(word)
    ensures word in UpGrammar.valued <==> UpValued(word)
  {
    assert UpGrammar.valued == {"--wait-timeout", "--timeout", "--pull"};
  }

  lemma {:induction false} RenderFlags(flags: seq<string>) returns (items: seq<Item>)
    ensures Render(items) == flags && |items| == |flags|
    ensures forall i :: 0 <= i < |flags| ==> items[i] == Flag(flags[i])
  {
    if flags == [] {
      items := [];
    } else {
      var rest := RenderFlags(flags[1..]);
      items := [Flag(flags[0])] + rest;
      assert flags == [flags[0]] + flags[1..];
    }
  }

  /** Any listed flags in any order, the three required ones among them, are accepted. */
  lemma FlagsAccepted(flags: seq<string>)
    requires forall i :: 0 <= i < |flags| ==> UpFlag(flags[i])
    requires HasRequired(flags)
    ensures InGrammar(["up"] + flags)
  {
    var items := RenderFlags(flags);
    FlagsCovered(flags, items);
    assert Render([]) + ["up"] + Render(items) == ["up"] + flags;
    assert GrammarSplit(["up"] + flags, [], items);
  }

  lemma {:induction false} RenderConcat(a: seq<Item>, b: seq<Item>)
    ensures Render(a + b) == Render(a) + Render(b)
    decreases |a|
  {
    if a == [] {
      assert a + b == b && Render(a) == [];
    } else {
      hide RenderItem;
      RenderConcat(a[1..], b);
      assert (a + b)[0] == a[0] && (a + b)[1..] == a[1..] + b;
      assert Render(a + b) == RenderItem(a[0]) + Render(a[1..] + b);
    }
  }

  lemma RenderOne(item: Item)
    ensures Render([item]) == RenderItem(item)
  {
    assert Render([item][1..]) == [];
  }

  /** Listed flags, the required ones among them, may be followed by any one more option of the language. */
  lemma OneMore(globals: seq<Item>, flags: seq<string>, item: Item)
    requires forall i :: 0 <= i < |globals| ==> ItemOk(GlobalGrammar, globals[i]) && Plain(globals[i])
    requires forall i :: 0 <= i < |flags| ==> UpFlag(flags[i])
    requires HasRequired(flags)
    requires ItemOk(UpGrammar, item) && Plain(item)
    ensures InGrammar(Render(globals) + ["up"] + flags + RenderItem(item))
  {
    hide *;
    var items := RenderFlags(flags);
    var options := items + [item];
    assert Render(options) == flags + RenderItem(item) by {
      RenderConcat(items, [item]);
      RenderOne(item);
    }
    assert (forall i :: 0 <= i < |items| ==> ItemOk(UpGrammar, items[i]) && Plain(items[i]))
      && forall flag :: flag in RequiredFlags ==> Flag(flag) in items by {
      FlagsCovered(flags, items);
    }
    Assembled(globals, items, item);
    assert Render(globals) + ["up"] + (flags + RenderItem(item)) == Render(globals) + ["up"] + flags + RenderItem(item);
  }

  lemma Assembled(globals: seq<Item>, items: seq<Item>, item: Item)
    requires forall i :: 0 <= i < |globals| ==> ItemOk(GlobalGrammar, globals[i]) && Plain(globals[i])
    requires forall i :: 0 <= i < |items| ==> ItemOk(UpGrammar, items[i]) && Plain(items[i])
    requires ItemOk(UpGrammar, item) && Plain(item)
    requires forall flag :: flag in RequiredFlags ==> Flag(flag) in items
    ensures InGrammar(Render(globals) + ["up"] + Render(items + [item]))
  {
    hide Render, ItemOk, Plain;
    var options := items + [item];
    assert GrammarSplit(Render(globals) + ["up"] + Render(options), globals, options);
  }

  lemma FlagsCovered(flags: seq<string>, items: seq<Item>)
    requires |items| == |flags| && forall i :: 0 <= i < |flags| ==> UpFlag(flags[i]) && items[i] == Flag(flags[i])
    requires HasRequired(flags)
    ensures forall i :: 0 <= i < |items| ==> ItemOk(UpGrammar, items[i]) && Plain(items[i])
    ensures forall flag :: flag in RequiredFlags ==> Flag(flag) in items
  {
    forall flag | flag in RequiredFlags ensures Flag(flag) in items {
      var i :| 0 <= i < |flags| && flags[i] == flag;
      assert items[i] == Flag(flag);
    }
  }

  /** A global option with its value is accepted, and an up option with its value in either form. */
  lemma ValuesAccepted(global: string, globalValue: string, flags: seq<string>, option: string, value: string)
    requires global in {"--ansi", "--progress"} && globalValue != "" && globalValue[0] != '-' && globalValue != "up"
    requires forall i :: 0 <= i < |flags| ==> UpFlag(flags[i])
    requires HasRequired(flags)
    requires UpValued(option)
    ensures value != "" && value[0] != '-' && value != "up" ==>
      InGrammar([global, globalValue] + ["up"] + flags + [option, value])
    ensures InGrammar([global, globalValue] + ["up"] + flags + [option + "=" + value])
  {
    var item := Valued(global, globalValue);
    RenderOne(item);
    hide Render;
    if value != "" && value[0] != '-' && value != "up" {
      OneMore([item], flags, Valued(option, value));
    }
    AssignedIsOk(option, value);
    OneMore([item], flags, Assigned(option + "=" + value));
  }

  lemma AssignedIsOk(option: string, value: string)
    requires UpValued(option)
    ensures ItemOk(UpGrammar, Assigned(option + "=" + value))
  {
    var text := option + "=" + value;
    assert IsAssignment(UpGrammar, text) by {
      assert option in UpGrammar.assignable && StartsWith(text, option + "=");
    }
    assert text !in UpGrammar.flags && text !in UpGrammar.valued by {
      assert text[|option|] == '=';
      hide IsAssignment, StartsWith;
      NamesSpelled(text);
    }
  }
}
