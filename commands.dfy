/**
 * The terminal's command table and the dispatcher that turns one line of
 * input into one command result: blank input, lookup by name and then by
 * alias, the handler's result or the error it throws, and "command not
 * found" with suggestions. The table also feeds the class-name, listing and
 * search helpers.
 */
module TerminalCommands {
  import opened Text
  import opened Wrappers

  // ---------------------------------------------------------------------------
  // Data model
  // ---------------------------------------------------------------------------

  datatype LineKind = Command | Output | Error | Success | Info | Warning | System | Separator

  /** One terminal line. Its id and timestamp are not modelled. */
  datatype Line = Line(content: string, kind: LineKind)

  datatype CommandResult = CommandResult(lines: seq<Line>, shouldClear: bool, shouldClose: bool, exitCode: int)

  /** The handlers of the built-in commands, one per table entry. */
  datatype Handler = Test | Help | Clear | About | Skills | Contact | Projects | Whoami | Ls | Pwd | Exit

  /** A command descriptor: its `execute` function is named by `handler`. */
  datatype TerminalCommand = TerminalCommand(name: string, description: string, usage: string, aliases: seq<string>, handler: Handler)

  /** One own property of the command record: its key and its descriptor. */
  datatype Entry = Entry(key: string, command: TerminalCommand)

  /** The command record, its properties in declaration order. */
  type Table = seq<Entry>

  /** What calling a handler does: it returns a result or throws with a message. */
  datatype Outcome = Returned(result: CommandResult) | Threw(message: string)

  /** A plain successful result. */
  function Ok(lines: seq<Line>): CommandResult {
    CommandResult(lines, false, false, 0)
  }

  // ---------------------------------------------------------------------------
  // The command table
  // ---------------------------------------------------------------------------

  const Registry: Table := [
    Entry("test", TerminalCommand("test", "Test command to verify terminal is working", "test", ["t"], Test)),
    Entry("help", TerminalCommand("help", "Show available commands", "help", ["h", "?"], Help)),
    Entry("clear", TerminalCommand("clear", "Clear terminal screen", "clear", ["cls"], Clear)),
    Entry("about", TerminalCommand("about", "About this system", "about", ["info"], About)),
    Entry("skills", TerminalCommand("skills", "Display technical skills", "skills [category]", ["tech", "stack"], Skills)),
    Entry("contact", TerminalCommand("contact", "Show contact information", "contact", ["email", "reach"], Contact)),
    Entry("projects", TerminalCommand("projects", "List recent projects", "projects [filter]", ["work", "portfolio"], Projects)),
    Entry("whoami", TerminalCommand("whoami", "Display current user information", "whoami", ["user", "me"], Whoami)),
    Entry("ls", TerminalCommand("ls", "List directory contents", "ls [options]", ["dir", "list"], Ls)),
    Entry("pwd", TerminalCommand("pwd", "Show current working directory", "pwd", ["path"], Pwd)),
    Entry("exit", TerminalCommand("exit", "Close terminal", "exit", ["quit", "bye"], Exit))
  ]

  /** The built-in handlers, each returning the result object the source
      writes out for it; `skills` reads its first argument, the others
      ignore theirs. None of them throws; all of them succeed, only `clear`
      asks for the screen to be cleared, and prints nothing, and only `exit`
      asks for the terminal to close. */
  function Run(h: Handler, args: seq<string>): (r: CommandResult)
    ensures r.exitCode == 0
    ensures r.shouldClear <==> h == Clear
    ensures r.shouldClose <==> h == Exit
    ensures r.shouldClear ==> r.lines == []
  {
    match h
    case Test => CommandResult(TestLines, false, false, 0)
    case Help => CommandResult(HelpLines, false, false, 0)
    case Clear => CommandResult([], true, false, 0)
    case About => CommandResult(AboutLines, false, false, 0)
    case Skills =>
      if |args| > 0 && ToLower(args[0]) == "frontend" then CommandResult(FrontendLines, false, false, 0)
      else CommandResult(OverviewLines, false, false, 0)
    case Contact => CommandResult(ContactLines, false, false, 0)
    case Projects => CommandResult(ProjectsLines, false, false, 0)
    case Whoami => CommandResult(WhoamiLines, false, false, 0)
    case Ls => CommandResult(LsLines, false, false, 0)
    case Pwd => CommandResult(PwdLines, false, false, 0)
    case Exit => CommandResult(ExitLines, false, true, 0)
  }

  /** Calling a built-in handler. */
  function Builtin(h: Handler, args: seq<string>): Outcome {
    Returned(Run(h, args))
  }

  // ---------------------------------------------------------------------------
  // Lookup
  // ---------------------------------------------------------------------------

  /** The first entry at or after `i` whose key is `name`. */
  function FindKey(table: Table, name: string, i: nat): (r: Option<nat>)
    requires i <= |table|
    ensures r.Some? ==> i <= r.value < |table| && table[r.value].key == name
    ensures r.Some? ==> forall j :: i <= j < r.value ==> table[j].key != name
    ensures r.None? ==> forall j :: i <= j < |table| ==> table[j].key != name
    decreases |table| - i
  {
    if i == |table| then None
    else if table[i].key == name then Some(i)
    else FindKey(table, name, i + 1)
  }

  /** The first entry at or after `i` that lists `name` among its aliases. */
  function FindAlias(table: Table, name: string, i: nat): (r: Option<nat>)
    requires i <= |table|
    ensures r.Some? ==> i <= r.value < |table| && name in table[r.value].command.aliases
    ensures r.Some? ==> forall j :: i <= j < r.value ==> name !in table[j].command.aliases
    ensures r.None? ==> forall j :: i <= j < |table| ==> name !in table[j].command.aliases
    decreases |table| - i
  {
    if i == |table| then None
    else if name in table[i].command.aliases then Some(i)
    else FindAlias(table, name, i + 1)
  }

  /** `terminalCommands[name]`, and failing that the first descriptor in table
      order whose aliases include `name`. Only the record's own keys are
      looked up: inherited properties such as `constructor` are not. */
  function Lookup(table: Table, name: string): Option<TerminalCommand> {
    match FindKey(table, name, 0)
    case Some(i) => Some(table[i].command)
    case None =>
      match FindAlias(table, name, 0)
      case Some(i) => Some(table[i].command)
      case None => None
  }

  /** Every key is its descriptor's name, keys are distinct, no alias is a
      key, and no two descriptors share an alias. */
  predicate WellFormed(table: Table) {
    && (forall i :: 0 <= i < |table| ==> table[i].key == table[i].command.name)
    && (forall i, j :: 0 <= i < j < |table| ==> table[i].key != table[j].key)
    && (forall i, j, a :: 0 <= i < |table| && 0 <= j < |table| && a in table[j].command.aliases ==> a != table[i].key)
    && (forall i, j, a :: 0 <= i < j < |table| && a in table[i].command.aliases ==> a !in table[j].command.aliases)
  }

  /** In a well-formed table a command's name and each of its aliases find
      that command. */
  lemma NameAndAliasesFindEntry(table: Table, i: nat, name: string)
    requires WellFormed(table) && i < |table|
    requires name == table[i].key || name in table[i].command.aliases
    ensures Lookup(table, name) == Some(table[i].command)
  {
    var k := FindKey(table, name, 0);
    if name == table[i].key {
      assert k.Some?;
      assert k.value == i;
    } else {
      assert k.None?;
      var m := FindAlias(table, name, 0);
      assert m.Some?;
      assert m.value == i;
    }
  }

  /** A command's aliases run the same handler, on the same arguments, as its
      name. */
  lemma AliasRunsLikeName(table: Table, exec: (Handler, seq<string>) -> Outcome, i: nat, alias: string, args: seq<string>)
    requires WellFormed(table) && i < |table| && alias in table[i].command.aliases
    ensures Resolve(table, exec, alias, args) == Resolve(table, exec, table[i].key, args)
  {
    NameAndAliasesFindEntry(table, i, alias);
    NameAndAliasesFindEntry(table, i, table[i].key);
  }

  /** Lookup finds something exactly when some entry has `name` as its key or
      among its aliases. */
  lemma LookupFound(table: Table, name: string)
    ensures Lookup(table, name).Some? <==>
      exists i :: 0 <= i < |table| && (table[i].key == name || name in table[i].command.aliases)
  {
    var k, m := FindKey(table, name, 0), FindAlias(table, name, 0);
    if k.Some? {
      assert table[k.value].key == name;
    } else if m.Some? {
      assert name in table[m.value].command.aliases;
    }
  }

  /** Where a key of the registry sits in it. */
  function KeyPosition(name: string): Option<nat> {
    if name == "test" then Some(0)
    else if name == "help" then Some(1)
    else if name == "clear" then Some(2)
    else if name == "about" then Some(3)
    else if name == "skills" then Some(4)
    else if name == "contact" then Some(5)
    else if name == "projects" then Some(6)
    else if name == "whoami" then Some(7)
    else if name == "ls" then Some(8)
    else if name == "pwd" then Some(9)
    else if name == "exit" then Some(10)
    else None
  }

  /** Which entry of the registry lists an alias. */
  function AliasPosition(name: string): Option<nat> {
    if name == "t" then Some(0)
    else if name == "h" || name == "?" then Some(1)
    else if name == "cls" then Some(2)
    else if name == "info" then Some(3)
    else if name == "tech" || name == "stack" then Some(4)
    else if name == "email" || name == "reach" then Some(5)
    else if name == "work" || name == "portfolio" then Some(6)
    else if name == "user" || name == "me" then Some(7)
    else if name == "dir" || name == "list" then Some(8)
    else if name == "path" then Some(9)
    else if name == "quit" || name == "bye" then Some(10)
    else None
  }

  /** Entry `i` of the registry sits where the position functions say, and
      none of its aliases is a key. The facts are proved one entry per lemma
      below, which keeps each proof small; `PlacedAll` combines them. */
  predicate Placed(i: nat)
    requires i < |Registry|
  {
    && KeyPosition(Registry[i].key) == Some(i)
    && forall a :: a in Registry[i].command.aliases ==> AliasPosition(a) == Some(i) && KeyPosition(a) == None
  }

  lemma Placed0()
    ensures Placed(0)
  {
  }

  lemma Placed1()
    ensures Placed(1)
  {
  }

  lemma Placed2()
    ensures Placed(2)
  {
  }

  lemma Placed3()
    ensures Placed(3)
  {
  }

  lemma Placed4()
    ensures Placed(4)
  {
  }

  lemma Placed5()
    ensures Placed(5)
  {
  }

  lemma Placed6()
    ensures Placed(6)
  {
  }

  lemma Placed7()
    ensures Placed(7)
  {
  }

  lemma Placed8()
    ensures Placed(8)
  {
  }

  lemma Placed9()
    ensures Placed(9)
  {
  }

  lemma Placed10()
    ensures Placed(10)
  {
  }

  lemma PlacedAll(i: nat)
    requires i < |Registry|
    ensures Placed(i)
  {
    if i == 0 { Placed0(); }
    else if i == 1 { Placed1(); }
    else if i == 2 { Placed2(); }
    else if i == 3 { Placed3(); }
    else if i == 4 { Placed4(); }
    else if i == 5 { Placed5(); }
    else if i == 6 { Placed6(); }
    else if i == 7 { Placed7(); }
    else if i == 8 { Placed8(); }
    else if i == 9 { Placed9(); }
    else { Placed10(); }
  }

  /** The command table is well formed. */
  lemma RegistryWellFormed()
    ensures WellFormed(Registry)
  {
    forall i | 0 <= i < |Registry| ensures Placed(i) && Registry[i].key == Registry[i].command.name {
      PlacedAll(i);
    }
  }

  /** Lookup in the registry, written out: the entry a key names, else the
      entry that lists the alias, else nothing. */
  lemma RegistryLookup(name: string)
    ensures Lookup(Registry, name) ==
      if KeyPosition(name).Some? then Some(Registry[KeyPosition(name).value].command)
      else if AliasPosition(name).Some? then Some(Registry[AliasPosition(name).value].command)
      else None
  {
    RegistryWellFormed();
    if KeyPosition(name).Some? {
      KeyNamesEntry(name);
      NameAndAliasesFindEntry(Registry, KeyPosition(name).value, name);
    } else if AliasPosition(name).Some? {
      AliasNamesEntry(name);
      NameAndAliasesFindEntry(Registry, AliasPosition(name).value, name);
    } else {
      var k, m := FindKey(Registry, name, 0), FindAlias(Registry, name, 0);
      if k.Some? {
        PlacedAll(k.value);
        assert false;
      }
      if m.Some? {
        PlacedAll(m.value);
        assert false;
      }
    }
  }

  lemma KeyNamesEntry(name: string)
    requires KeyPosition(name).Some?
    ensures KeyPosition(name).value < |Registry| && Registry[KeyPosition(name).value].key == name
  {
  }

  lemma AliasNamesEntry(name: string)
    requires AliasPosition(name).Some?
    ensures AliasPosition(name).value < |Registry| && name in Registry[AliasPosition(name).value].command.aliases
  {
  }

  // ---------------------------------------------------------------------------
  // Dispatch
  // ---------------------------------------------------------------------------

  /** The result for blank input. */
  const BlankResult: CommandResult := Ok([Line("", Output)])

  /** The result when a handler throws. */
  function Failure(message: string): CommandResult {
    CommandResult([Line("Error executing command: " + message, Error), Line("", Output)], false, false, 1)
  }

  /** `cmd.startsWith(prefix)` over the keys, in order. */
  function Matching(keys: seq<string>, prefix: string): seq<string> {
    if keys == [] then []
    else if StartsWith(keys[0], prefix) then [keys[0]] + Matching(keys[1..], prefix)
    else Matching(keys[1..], prefix)
  }

  /** `Object.keys(table)`. */
  function Keys(table: Table): (r: seq<string>)
    ensures |r| == |table|
    ensures forall i :: 0 <= i < |table| ==> r[i] == table[i].key
  {
    seq(|table|, i requires 0 <= i < |table| => table[i].key)
  }

  /** Up to three keys that start with the first two characters of `name`. */
  function Suggestions(table: Table, name: string): seq<string> {
    Take(Matching(Keys(table), Take(name, 2)), 3)
  }

  function SuggestionText(suggestions: seq<string>): string {
    if |suggestions| > 0 then "Did you mean: " + JoinWith(suggestions, ", ") + "?"
    else "Type 'help' to see available commands"
  }

  /** The result for a name that no entry has as key or alias. */
  function NotFound(table: Table, name: string): CommandResult {
    CommandResult(
      [Line("Command not found: " + name, Error), Line(SuggestionText(Suggestions(table, name)), Info), Line("", Output)],
      false, false, 127)
  }

  /** Running a parsed command: the handler's result, the error it threw, or
      "not found". */
  function Resolve(table: Table, exec: (Handler, seq<string>) -> Outcome, name: string, args: seq<string>): CommandResult {
    match Lookup(table, name)
    case Some(cmd) =>
      (match exec(cmd.handler, args)
       case Returned(r) => r
       case Threw(m) => Failure(m))
    case None => NotFound(table, name)
  }

  /** `executeCommand` over a command table whose handlers `exec` runs. */
  function Dispatch(table: Table, exec: (Handler, seq<string>) -> Outcome, input: string): CommandResult {
    var trimmed := Trim(input);
    if trimmed == [] then BlankResult
    else
      var tokens := Split(ToLower(trimmed));
      Resolve(table, exec, tokens[0], tokens[1..])
  }

  /** `executeCommand(input)`. */
  function ExecuteCommand(input: string): CommandResult {
    Dispatch(Registry, Builtin, input)
  }

  /** The tokens of non-blank input are the words of the lowercased input:
      arguments are lowercased too. */
  lemma TokensAreWords(input: string)
    requires !AllSpace(input)
    ensures Split(ToLower(Trim(input))) == Words(ToLower(input))
    ensures |Words(ToLower(input))| >= 1
  {
    var l := ToLower(input);
    LowerOfTrim(input);
    LowerAllSpace(input);
    TrimEmpty(l);
    SplitTrimmedIsWords(Trim(l));
    WordsOfTrim(l);
  }

  /** What `executeCommand` does, case by case, for any table and handlers:
      blank input gives one blank line and touches neither; otherwise the
      first word of the lowercased input is looked up and the other words are
      the arguments. */
  lemma DispatchCases(table: Table, exec: (Handler, seq<string>) -> Outcome, input: string)
    ensures AllSpace(input) ==> Dispatch(table, exec, input) == CommandResult([Line("", Output)], false, false, 0)
    ensures !AllSpace(input) ==>
      var ws := Words(ToLower(input));
      |ws| >= 1 && Dispatch(table, exec, input) == Resolve(table, exec, ws[0], ws[1..])
  {
    TrimEmpty(input);
    if !AllSpace(input) { TokensAreWords(input); }
  }

  /** The exit codes: 127 when nothing is found, 1 with the message when the
      handler throws, the handler's own result otherwise. */
  lemma ResolveCases(table: Table, exec: (Handler, seq<string>) -> Outcome, name: string, args: seq<string>)
    ensures var r := Resolve(table, exec, name, args);
      && (Lookup(table, name).None? ==>
            r.exitCode == 127 && !r.shouldClear && !r.shouldClose && |r.lines| == 3
            && r.lines[0] == Line("Command not found: " + name, Error)
            && r.lines[1] == Line(SuggestionText(Suggestions(table, name)), Info)
            && r.lines[2] == Line("", Output))
      && (Lookup(table, name).Some? && exec(Lookup(table, name).value.handler, args).Threw? ==>
            r == CommandResult([Line("Error executing command: " + exec(Lookup(table, name).value.handler, args).message, Error),
                                Line("", Output)], false, false, 1))
      && (Lookup(table, name).Some? && exec(Lookup(table, name).value.handler, args).Returned? ==>
            r == exec(Lookup(table, name).value.handler, args).result)
  {
  }

  /** Matching keeps exactly the keys with the prefix. */
  lemma {:induction false} MatchingMembers(keys: seq<string>, prefix: string)
    ensures forall x :: x in Matching(keys, prefix) <==> x in keys && StartsWith(x, prefix)
    decreases |keys|
  {
    if keys != [] {
      MatchingMembers(keys[1..], prefix);
      assert keys == [keys[0]] + keys[1..];
    }
  }

  /** Matching keeps table order: the matches among earlier keys come first. */
  lemma {:induction false} MatchingAppend(a: seq<string>, b: seq<string>, prefix: string)
    ensures Matching(a + b, prefix) == Matching(a, prefix) + Matching(b, prefix)
    decreases |a|
  {
    if a == [] {
      assert a + b == b;
    } else {
      assert (a + b)[0] == a[0] && (a + b)[1..] == a[1..] + b;
      MatchingAppend(a[1..], b, prefix);
    }
  }

  /** At most three suggestions, each a key starting with the first two
      characters of the name; they are the first matches in table order, and
      when there are at most three matches, all of them. */
  lemma SuggestionsSpec(table: Table, name: string)
    ensures var s, all := Suggestions(table, name), Matching(Keys(table), Take(name, 2));
      && |s| == (if |all| < 3 then |all| else 3)
      && s == all[..|s|]
      && (forall x :: x in s ==> x in Keys(table) && StartsWith(x, Take(name, 2)))
      && (|all| <= 3 ==> forall x :: x in Keys(table) && StartsWith(x, Take(name, 2)) ==> x in s)
  {
    var s, all := Suggestions(table, name), Matching(Keys(table), Take(name, 2));
    MatchingMembers(Keys(table), Take(name, 2));
    forall x | x in s ensures x in all {
      var k :| 0 <= k < |s| && s[k] == x;
      assert all[k] == x;
    }
    assert |all| <= 3 ==> s == all;
  }

  // ---------------------------------------------------------------------------
  // The dispatcher over the built-in table
  // ---------------------------------------------------------------------------

  /** The first word and the other words of the lowercased input. */
  function CommandName(input: string): string
    requires !AllSpace(input)
  {
    TokensAreWords(input);
    Words(ToLower(input))[0]
  }

  function Arguments(input: string): seq<string>
    requires !AllSpace(input)
  {
    TokensAreWords(input);
    Words(ToLower(input))[1..]
  }

  /** A name the registry knows, as key or alias. */
  predicate Known(name: string) {
    KeyPosition(name).Some? || AliasPosition(name).Some?
  }

  /** The handler a known name runs. */
  function HandlerOf(name: string): Handler
    requires Known(name)
  {
    var p := if KeyPosition(name).Some? then KeyPosition(name).value else AliasPosition(name).value;
    Registry[p].command.handler
  }

  /** `executeCommand` on the built-in table: blank input, a known name runs
      its handler on the lowercased arguments, anything else is not found.
      No built-in handler throws, so the exit code is 0 or 127. */
  lemma ExecuteCommandCases(input: string)
    ensures AllSpace(input) ==> ExecuteCommand(input) == BlankResult
    ensures !AllSpace(input) && Known(CommandName(input)) ==>
      ExecuteCommand(input) == Run(HandlerOf(CommandName(input)), Arguments(input))
    ensures !AllSpace(input) && !Known(CommandName(input)) ==>
      ExecuteCommand(input) == NotFound(Registry, CommandName(input))
    ensures ExecuteCommand(input).exitCode == 0 || ExecuteCommand(input).exitCode == 127
    ensures ExecuteCommand(input).exitCode == 127 <==> !AllSpace(input) && !Known(CommandName(input))
    ensures ExecuteCommand(input).shouldClear <==>
      !AllSpace(input) && Known(CommandName(input)) && HandlerOf(CommandName(input)) == Clear
    ensures ExecuteCommand(input).shouldClose <==>
      !AllSpace(input) && Known(CommandName(input)) && HandlerOf(CommandName(input)) == Exit
  {
    DispatchCases(Registry, Builtin, input);
    if !AllSpace(input) {
      RegistryLookup(CommandName(input));
    }
  }

  /** The names that reach the `clear` handler. */
  lemma ClearHandler(name: string)
    ensures Known(name) && HandlerOf(name) == Clear <==> name == "clear" || name == "cls"
  {
  }

  /** The names that reach the `exit` handler. */
  lemma ExitHandler(name: string)
    ensures Known(name) && HandlerOf(name) == Exit <==> name == "exit" || name == "quit" || name == "bye"
  {
    if name == "exit" {
      assert KeyPosition(name) == Some(10);
    } else if name == "quit" || name == "bye" {
      assert KeyPosition(name) == None;
      assert AliasPosition(name) == Some(10);
    }
  }

  /** Only `clear` and its alias clear the screen, and they print nothing. */
  lemma OnlyClearClears(input: string)
    ensures ExecuteCommand(input).shouldClear <==>
      !AllSpace(input) && (CommandName(input) == "clear" || CommandName(input) == "cls")
    ensures ExecuteCommand(input).shouldClear ==> ExecuteCommand(input).lines == []
  {
    ExecuteCommandCases(input);
    if !AllSpace(input) {
      ClearHandler(CommandName(input));
    }
  }

  /** Only `exit`, `quit` and `bye` close the terminal. */
  lemma OnlyExitCloses(input: string)
    ensures ExecuteCommand(input).shouldClose <==>
      !AllSpace(input) && (CommandName(input) == "exit" || CommandName(input) == "quit" || CommandName(input) == "bye")
  {
    ExecuteCommandCases(input);
    if !AllSpace(input) {
      ExitHandler(CommandName(input));
    }
  }

  /** `skills frontend`, in any letter case, shows the frontend block;
      `skills` with any other first argument, or none, shows the overview. */
  lemma SkillsOutput(args: seq<string>)
    ensures |args| > 0 && ToLower(args[0]) == "frontend" ==>
      Run(Skills, args).lines == FrontendLines && FrontendLines[0] == Line("FRONTEND EXPERTISE", System)
    ensures !(|args| > 0 && ToLower(args[0]) == "frontend") ==>
      Run(Skills, args).lines == OverviewLines && OverviewLines[0] == Line("TECHNICAL SKILLS OVERVIEW", System)
    ensures Contains(OverviewLines[9].content, "skills frontend")
  {
    var pre, mid, post := "💡 Use '", "skills frontend", "' for detailed frontend skills";
    assert OverviewLines[9].content == pre + mid + post;
    ContainsAt(pre + mid + post, mid, |pre|);
  }

  /** A string contains every slice of itself. */
  lemma {:induction false} ContainsAt(s: string, sub: string, k: nat)
    requires k + |sub| <= |s| && s[k..k + |sub|] == sub
    ensures Contains(s, sub)
    decreases k
  {
    if k > 0 {
      assert s[1..][k - 1..k - 1 + |sub|] == s[k..k + |sub|];
      ContainsAt(s[1..], sub, k - 1);
    } else {
      assert StartsWith(s, sub);
    }
  }

  // ---------------------------------------------------------------------------
  // Styling and helpers
  // ---------------------------------------------------------------------------

  const BaseClasses: string := "font-mono text-sm leading-relaxed animate-in fade-in duration-300"

  /** The colour and weight classes of each kind of line. */
  function KindClasses(kind: LineKind): string {
    match kind
    case Command => "text-[#00D9FF] font-medium"
    case System => "text-[#00D9FF] font-bold"
    case Separator => "text-[#00D9FF]/60"
    case Error => "text-red-400 font-medium"
    case Warning => "text-orange-400"
    case Success => "text-green-400"
    case Info => "text-[#00D9FF]/80"
    case Output => "text-[#FFFFFF]"
  }

  /** `getLineClassName(line)`. */
  function LineClassName(line: Line): (r: string)
    ensures StartsWith(r, BaseClasses + " ")
  {
    BaseClasses + " " + KindClasses(line.kind)
  }

  /** Different kinds of line get different classes; plain output is white. */
  lemma LineClassNameInjective(a: Line, b: Line)
    ensures LineClassName(a) == LineClassName(b) <==> a.kind == b.kind
    ensures a.kind == Output ==> LineClassName(a) == BaseClasses + " text-[#FFFFFF]"
  {
    var n := |BaseClasses + " "|;
    if LineClassName(a) == LineClassName(b) {
      assert LineClassName(a)[n..] == KindClasses(a.kind);
      assert LineClassName(b)[n..] == KindClasses(b.kind);
    }
  }

  /** `getAllCommands()`. */
  function GetAllCommands(table: Table): seq<string> {
    Keys(table)
  }

  /** The listing holds one name per entry, and each listed name is one that
      lookup finds by key; in a well-formed table the `i`-th listed name runs
      the `i`-th command. */
  lemma AllCommandsRunnable(table: Table)
    ensures |GetAllCommands(table)| == |table|
    ensures forall k :: k in GetAllCommands(table) <==> FindKey(table, k, 0).Some?
    ensures WellFormed(table) ==>
      forall i :: 0 <= i < |table| ==> Lookup(table, GetAllCommands(table)[i]) == Some(table[i].command)
  {
    var r := GetAllCommands(table);
    forall k | k in r ensures FindKey(table, k, 0).Some? {
      var i :| 0 <= i < |r| && r[i] == k;
      assert table[i].key == k;
    }
    forall k | FindKey(table, k, 0).Some? ensures k in r {
      assert r[FindKey(table, k, 0).value] == k;
    }
    if WellFormed(table) {
      forall i | 0 <= i < |table| ensures Lookup(table, r[i]) == Some(table[i].command) {
        NameAndAliasesFindEntry(table, i, r[i]);
      }
    }
  }

  /** `getCommandAliases()`: every descriptor's aliases, in table order. */
  function GetCommandAliases(table: Table): seq<string> {
    if table == [] then [] else table[0].command.aliases + GetCommandAliases(table[1..])
  }

  lemma {:induction false} AliasesMembers(table: Table)
    ensures forall a :: a in GetCommandAliases(table) <==>
      exists i :: 0 <= i < |table| && a in table[i].command.aliases
    decreases |table|
  {
    if table != [] {
      AliasesMembers(table[1..]);
      forall a | a in GetCommandAliases(table)
        ensures exists i :: 0 <= i < |table| && a in table[i].command.aliases
      {
        if a !in table[0].command.aliases {
          assert a in GetCommandAliases(table[1..]);
          var i :| 0 <= i < |table[1..]| && a in table[1..][i].command.aliases;
          assert a in table[i + 1].command.aliases;
        }
      }
      forall a, i | 0 <= i < |table| && a in table[i].command.aliases
        ensures a in GetCommandAliases(table)
      {
        if i > 0 { assert a in table[1..][i - 1].command.aliases; }
      }
    }
  }

  /** A search query matches a command through its key or its lowercased
      description. */
  predicate Matches(e: Entry, lowerQuery: string) {
    Contains(e.key, lowerQuery) || Contains(ToLower(e.command.description), lowerQuery)
  }

  function SearchFrom(table: Table, lowerQuery: string): seq<string> {
    if table == [] then []
    else (if Matches(table[0], lowerQuery) then [table[0].key] else []) + SearchFrom(table[1..], lowerQuery)
  }

  /** `searchCommands(query)`. */
  function SearchCommands(table: Table, query: string): seq<string> {
    SearchFrom(table, ToLower(query))
  }

  lemma {:induction false} SearchMembers(table: Table, lowerQuery: string)
    ensures forall x :: x in SearchFrom(table, lowerQuery) <==>
      exists i :: 0 <= i < |table| && table[i].key == x && Matches(table[i], lowerQuery)
    decreases |table|
  {
    if table != [] {
      SearchMembers(table[1..], lowerQuery);
      var head := if Matches(table[0], lowerQuery) then [table[0].key] else [];
      forall x | x in SearchFrom(table, lowerQuery)
        ensures exists i :: 0 <= i < |table| && table[i].key == x && Matches(table[i], lowerQuery)
      {
        if x !in head {
          assert x in SearchFrom(table[1..], lowerQuery);
          var i :| 0 <= i < |table[1..]| && table[1..][i].key == x && Matches(table[1..][i], lowerQuery);
          assert table[i + 1] == table[1..][i];
        }
      }
      forall x, i | 0 <= i < |table| && table[i].key == x && Matches(table[i], lowerQuery)
        ensures x in SearchFrom(table, lowerQuery)
      {
        if i > 0 { assert table[1..][i - 1] == table[i]; }
      }
    }
  }

  /** The results of a search are keys whose key or description contains the
      lowercased query, and every such key is found. */
  lemma SearchSpec(table: Table, query: string)
    ensures forall x :: x in SearchCommands(table, query) <==>
      exists i :: 0 <= i < |table| && table[i].key == x && Matches(table[i], ToLower(query))
  {
    SearchMembers(table, ToLower(query));
  }

  /** The empty query finds every command, in table order. */
  lemma {:induction false} SearchEmpty(table: Table)
    ensures SearchCommands(table, "") == GetAllCommands(table)
    decreases |table|
  {
    if table != [] {
      assert ToLower("") == "";
      assert StartsWith(table[0].key, "");
      SearchEmpty(table[1..]);
      assert Keys(table) == [table[0].key] + Keys(table[1..]);
    }
  }

  // ---------------------------------------------------------------------------
  // Output of the built-in commands
  // ---------------------------------------------------------------------------

  /** The banner a freshly opened terminal shows. */
  const InitialLines: seq<Line> := [
    Line("CYBERNETIC TERMINAL v5.0.1", System),
    Line("━━━━━━━━━━━━━━━━━━━━━━━━━━━━━━━━━━━━━━━━━━━━━━━━━━━", Separator),
    Line("System initialized successfully", System),
    Line("Type 'help' for available commands", Info),
    Line("", Output)
  ]

  /** Output of `test`. */
  const TestLines: seq<Line> := [
    Line("🧪 Terminal test successful!", Success),
    Line("✅ Input is working", Success),
    Line("✅ Commands are executing", Success),
    Line("✅ Display is functioning", Success),
    Line("", Output),
    Line("If you can see this, the terminal is working correctly!", Info),
    Line("", Output)
  ]

  /** Output of `help`. */
  const HelpLines: seq<Line> := [
    Line("AVAILABLE COMMANDS", System),
    Line("━━━━━━━━━━━━━━━━━━━━━━━━━━━━━━━━━━━━━━━━━━━━━━━━━━━", Separator),
    Line("  help       - Show this help message", Output),
    Line("  clear      - Clear terminal screen", Output),
    Line("  about      - About this system", Output),
    Line("  skills     - Display technical skills", Output),
    Line("  contact    - Show contact information", Output),
    Line("  projects   - List recent projects", Output),
    Line("  whoami     - Display current user info", Output),
    Line("  ls         - List directory contents", Output),
    Line("  pwd        - Show current directory", Output),
    Line("  exit       - Close terminal", Output),
    Line("", Output),
    Line("TIP: Use Tab for autocompletion, ↑/↓ for history", Info),
    Line("", Output)
  ]

  /** Output of `about`. */
  const AboutLines: seq<Line> := [
    Line("CYBERNETIC PORTFOLIO SYSTEM v5.0.1", System),
    Line("━━━━━━━━━━━━━━━━━━━━━━━━━━━━━━━━━━━━━━━━━━━━━━━━━━━", Separator),
    Line("Architecture: React 18 + TypeScript + Vite", Output),
    Line("Styling: Tailwind CSS with cybernetic design system", Output),
    Line("State Management: Advanced Context + useReducer", Output),
    Line("Error Handling: Comprehensive boundary system", Output),
    Line("Performance: Optimized with React.memo and useMemo", Output),
    Line("", Output),
    Line("Portfolio of JC LAMY - Senior Full Stack Developer", Info),
    Line("Based in Paris, France", Info),
    Line("15+ years of experience in modern web development", Info),
    Line("", Output),
    Line("Built with precision and attention to detail", Info),
    Line("", Output)
  ]

  /** Output of `skills frontend`. */
  const FrontendLines: seq<Line> := [
    Line("FRONTEND EXPERTISE", System),
    Line("━━━━━━━━━━━━━━━━━━━━━━━━━━━━━━━━━━━━━━━━━━━━━━━━━━━", Separator),
    Line("⚛️  React 18 (Hooks, Context, Suspense, Concurrent Features)", Output),
    Line("📘 TypeScript (Advanced types, Generics, Conditional types)", Output),
    Line("⚡ Next.js (SSR, SSG, App Router, Edge Functions)", Output),
    Line("🎨 CSS-in-JS (Styled Components, Emotion)", Output),
    Line("🎯 State Management (Redux Toolkit, Zustand, Jotai)", Output),
    Line("🧪 Testing (Jest, React Testing Library, Cypress)", Output),
    Line("", Output)
  ]

  /** Output of `skills` with any other argument, or none. */
  const OverviewLines: seq<Line> := [
    Line("TECHNICAL SKILLS OVERVIEW", System),
    Line("━━━━━━━━━━━━━━━━━━━━━━━━━━━━━━━━━━━━━━━━━━━━━━━━━━━", Separator),
    Line("🎯 Frontend: React, TypeScript, Next.js, Vue.js", Output),
    Line("⚙️  Backend: Node.js, Python, Go, Java", Output),
    Line("🗄️  Database: PostgreSQL, MongoDB, Redis, Elasticsearch", Output),
    Line("☁️  Cloud: AWS, GCP, Docker, Kubernetes", Output),
    Line("🔧 DevOps: CI/CD, Terraform, Monitoring", Output),
    Line("📱 Mobile: React Native, Flutter", Output),
    Line("", Output),
    Line("💡 Use '" + "skills frontend" + "' for detailed frontend skills", Output),
    Line("", Output)
  ]

  /** Output of `contact`. */
  const ContactLines: seq<Line> := [
    Line("CONTACT INFORMATION", System),
    Line("━━━━━━━━━━━━━━━━━━━━━━━━━━━━━━━━━━━━━━━━━━━━━━━━━━━", Separator),
    Line("📧 Email: lamypro66@gmail.com", Output),
    Line("🌍 Location: Paris, France", Output),
    Line("💼 LinkedIn: /in/jc-lamy", Output),
    Line("🐙 GitHub: /jc-lamy", Output),
    Line("🌐 Website: jc-lamy.dev", Output),
    Line("", Output),
    Line("💻 Remote work: Available worldwide", Output),
    Line("🚀 Status: Open to exciting opportunities", Output),
    Line("⏰ Response time: Usually within 24h", Output),
    Line("", Output)
  ]

  /** Output of `projects`. */
  const ProjectsLines: seq<Line> := [
    Line("FEATURED PROJECTS", System),
    Line("━━━━━━━━━━━━━━━━━━━━━━━━━━━━━━━━━━━━━━━━━━━━━━━━━━━", Separator),
    Line("🎯 1. Cybernetic Portfolio (2024)", Output),
    Line("     → Advanced React/TS terminal interface", Output),
    Line("     → Custom error boundaries & performance optimization", Output),
    Line("", Output),
    Line("🚀 2. E-commerce Platform (2023)", Output),
    Line("     → Microservices architecture with Node.js", Output),
    Line("     → Real-time inventory & payment processing", Output),
    Line("", Output),
    Line("📊 3. Analytics Dashboard (2023)", Output),
    Line("     → Real-time data visualization with D3.js", Output),
    Line("     → WebSocket connections & streaming data", Output),
    Line("", Output),
    Line("📱 4. Cross-Platform Mobile App (2022)", Output),
    Line("     → React Native with native module integration", Output),
    Line("     → 50k+ active users, 4.8★ rating", Output),
    Line("", Output)
  ]

  /** Output of `whoami`. */
  const WhoamiLines: seq<Line> := [
    Line("USER INFORMATION", System),
    Line("━━━━━━━━━━━━━━━━━━━━━━━━━━━━━━━━━━━━━━━━━━━━━━━━━━━", Separator),
    Line("👤 Name: JC LAMY", Output),
    Line("💼 Role: Senior Full Stack Developer", Output),
    Line("🏢 Experience: 15+ years", Output),
    Line("📍 Location: Paris, France", Output),
    Line("🎯 Specialization: React, TypeScript, Node.js", Output),
    Line("🌟 Passion: Creating beautiful, performant web experiences", Output),
    Line("", Output)
  ]

  /** Output of `ls`. */
  const LsLines: seq<Line> := [
    Line("DIRECTORY CONTENTS", System),
    Line("━━━━━━━━━━━━━━━━━━━━━━━━━━━━━━━━━━━━━━━━━━━━━━━━━━━", Separator),
    Line("📁 projects/          - Recent work and side projects", Output),
    Line("📁 skills/            - Technical expertise and certifications", Output),
    Line("📁 experience/        - Professional work history", Output),
    Line("📁 education/         - Academic background", Output),
    Line("📄 resume.pdf         - Comprehensive CV", Output),
    Line("📄 contact.md         - Contact information", Output),
    Line("📄 README.md          - About this portfolio", Output),
    Line("", Output),
    Line("Total: 7 items", Output),
    Line("", Output)
  ]

  /** Output of `pwd`. */
  const PwdLines: seq<Line> := [
    Line("/home/jc-lamy/portfolio", Output),
    Line("", Output)
  ]

  /** Output of `exit`. */
  const ExitLines: seq<Line> := [
    Line("👋 Thanks for visiting!", System),
    Line("Terminal session ended.", System),
    Line("", Output)
  ]
}
