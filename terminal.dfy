/**
 * The terminal session: the reducer over the session state, and the
 * session object whose callbacks (submitting a line, the keyboard handler,
 * the maximise, clear and input actions, opening the terminal) issue
 * reducer actions one after another.
 */
module TerminalSession {
  import opened Text
  import opened TerminalCommands

  // ---------------------------------------------------------------------------
  // State and reducer
  // ---------------------------------------------------------------------------

  datatype TerminalState = TerminalState(
    lines: seq<Line>,
    isMaximized: bool,
    currentInput: string,
    commandHistory: seq<string>,
    historyIndex: int)

  datatype Action =
    | Initialize(initialLines: seq<Line>)
    | AddLines(newLines: seq<Line>)
    | ClearLines
    | SetInput(input: string)
    | AddToHistory(command: string)
    | SetHistoryIndex(index: int)
    | ToggleMaximize
    | SetMaximize(maximized: bool)

  /** How many commands the history keeps. */
  const MaxHistory: nat := 50

  /** The state the session starts in. */
  const InitialState: TerminalState := TerminalState([], false, "", [], -1)

  /** The history index stays within the history (-1 meaning "not browsing")
      and the history holds at most `MaxHistory` commands. */
  predicate Valid(s: TerminalState) {
    -1 <= s.historyIndex < |s.commandHistory| && |s.commandHistory| <= MaxHistory
  }

  /** `s.slice(-n)`: the last `n` elements, or all of them when there are fewer. */
  function KeepLast<T>(s: seq<T>, n: nat): seq<T> {
    if |s| <= n then s else s[|s| - n..]
  }

  /** `terminalReducer(state, action)`. */
  function Reduce(s: TerminalState, a: Action): TerminalState {
    match a
    case Initialize(ls) => s.(lines := ls, currentInput := "", historyIndex := -1)
    case AddLines(ls) => s.(lines := s.lines + ls)
    case ClearLines => s.(lines := [])
    case SetInput(input) => s.(currentInput := input)
    case AddToHistory(c) => s.(commandHistory := KeepLast(s.commandHistory + [c], MaxHistory), historyIndex := -1)
    case SetHistoryIndex(i) => s.(historyIndex := i)
    case ToggleMaximize => s.(isMaximized := !s.isMaximized)
    case SetMaximize(m) => s.(isMaximized := m)
  }

  /** `KeepLast` keeps the newest `n` elements, in order, dropping the oldest. */
  lemma KeepLastSpec<T>(s: seq<T>, n: nat)
    ensures var r := KeepLast(s, n);
      && |r| == (if |s| <= n then |s| else n)
      && r == s[|s| - |r|..]
  {
  }

  /** Every action keeps the state valid, given that an explicit history index
      lies within the history. */
  lemma ReduceKeepsValid(s: TerminalState, a: Action)
    requires Valid(s)
    requires a.SetHistoryIndex? ==> -1 <= a.index < |s.commandHistory|
    ensures Valid(Reduce(s, a))
  {
  }

  /** Adding to the history appends the command, keeps at most the newest 50
      entries, and stops browsing; only the history and its index change. */
  lemma AddToHistorySpec(s: TerminalState, c: string)
    requires Valid(s)
    ensures var r := Reduce(s, AddToHistory(c));
      && r.historyIndex == -1
      && |r.commandHistory| == (if |s.commandHistory| < MaxHistory then |s.commandHistory| + 1 else MaxHistory)
      && r.commandHistory[|r.commandHistory| - 1] == c
      && (|s.commandHistory| < MaxHistory ==> r.commandHistory == s.commandHistory + [c])
      && (|s.commandHistory| == MaxHistory ==> r.commandHistory == s.commandHistory[1..] + [c])
      && r.lines == s.lines && r.currentInput == s.currentInput && r.isMaximized == s.isMaximized
  {
    var h := s.commandHistory + [c];
    KeepLastSpec(h, MaxHistory);
    if |s.commandHistory| == MaxHistory {
      assert h[1..] == s.commandHistory[1..] + [c];
    }
  }

  /** Re-initialising replaces the lines and resets input and index, but keeps
      the history and the window size. */
  lemma InitializeKeepsHistory(s: TerminalState, ls: seq<Line>)
    ensures var r := Reduce(s, Initialize(ls));
      r == TerminalState(ls, s.isMaximized, "", s.commandHistory, -1)
  {
  }

  // ---------------------------------------------------------------------------
  // What the callbacks do, as functions of the state
  // ---------------------------------------------------------------------------

  /** What the session asks of its owner: to close now, or after a delay. */
  datatype CloseRequest = CloseNow | CloseAfter(delayMs: nat)

  /** The state after a callback and the close requests it issued. */
  datatype Step = Step(state: TerminalState, requests: seq<CloseRequest>)

  /** The delay before the terminal closes after `exit`. */
  const CloseDelayMs: nat := 500

  /** The line echoing a submitted command. */
  function EchoLine(input: string): Line {
    Line("$ " + input, Command)
  }

  /** The `executeCommand` callback, given what the command evaluates to:
      blank input changes nothing; otherwise the raw input joins the history
      and the result either schedules the close, clears the screen, or adds
      the echo and the output lines. */
  function Submit(s: TerminalState, input: string, result: CommandResult): Step {
    if AllSpace(input) then Step(s, [])
    else
      var h := Reduce(s, AddToHistory(input));
      if result.shouldClose then Step(h, [CloseAfter(CloseDelayMs)])
      else if result.shouldClear then Step(Reduce(h, ClearLines), [])
      else Step(Reduce(h, AddLines([EchoLine(input)] + result.lines)), [])
  }

  /** `history[i] || ''`: the entry, or the empty string past either end. */
  function EntryAt(history: seq<string>, i: int): string {
    if 0 <= i < |history| then history[i] else ""
  }

  /** The input shown while browsing at `index` (0 is the newest command). */
  function Recalled(history: seq<string>, index: int): string {
    EntryAt(history, |history| - 1 - index)
  }

  /** ArrowUp: one step back in the history, stopping at the oldest entry. */
  function RecallOlder(s: TerminalState): TerminalState {
    if |s.commandHistory| > 0 then
      var n := if s.historyIndex + 1 < |s.commandHistory| - 1 then s.historyIndex + 1 else |s.commandHistory| - 1;
      Reduce(Reduce(s, SetHistoryIndex(n)), SetInput(Recalled(s.commandHistory, n)))
    else s
  }

  /** ArrowDown: one step forward; from the newest entry back to an empty
      input; nothing when not browsing. */
  function RecallNewer(s: TerminalState): TerminalState {
    if s.historyIndex > 0 then
      var n := s.historyIndex - 1;
      Reduce(Reduce(s, SetHistoryIndex(n)), SetInput(Recalled(s.commandHistory, n)))
    else if s.historyIndex == 0 then
      Reduce(Reduce(s, SetHistoryIndex(-1)), SetInput(""))
    else s
  }

  /** The names Tab completes against, in the order the hook lists them. */
  const AvailableCommands: seq<string> :=
    ["test", "help", "clear", "about", "skills", "contact", "projects", "exit", "whoami", "ls", "pwd"]

  /** The line listing several completions. */
  function CompletionLine(matches: seq<string>): Line {
    Line("Available: " + JoinWith(matches, ", "), Info)
  }

  /** Tab: a single completion replaces the input, several are listed, none
      does nothing; nothing at all when completion is off. */
  function Complete(s: TerminalState, enabled: bool): TerminalState {
    var matches := Matching(AvailableCommands, ToLower(s.currentInput));
    if !enabled then s
    else if |matches| == 1 then Reduce(s, SetInput(matches[0]))
    else if |matches| > 1 then Reduce(s, AddLines([CompletionLine(matches)]))
    else s
  }

  /** A key press: the key's name and whether Ctrl or Meta was held. */
  datatype KeyEvent = KeyEvent(key: string, ctrlKey: bool, metaKey: bool)

  /** `handleKeyDown(e)`, where `run` evaluates a command line. Enter submits
      the current input and empties it. */
  function KeyDown(s: TerminalState, e: KeyEvent, autoComplete: bool, run: string -> CommandResult): Step {
    if e.key == "Enter" then
      var st := Submit(s, s.currentInput, run(s.currentInput));
      Step(Reduce(st.state, SetInput("")), st.requests)
    else if e.key == "ArrowUp" then Step(RecallOlder(s), [])
    else if e.key == "ArrowDown" then Step(RecallNewer(s), [])
    else if e.key == "Tab" then Step(Complete(s, autoComplete), [])
    else if e.key == "Escape" then Step(s, [CloseNow])
    else if e.key == "l" && (e.ctrlKey || e.metaKey) then Step(Reduce(s, ClearLines), [])
    else if e.key == "c" && (e.ctrlKey || e.metaKey) then Step(Reduce(s, SetInput("")), [])
    else Step(s, [])
  }

  /** Opening the terminal: the welcome lines, an empty input, not browsing,
      not maximised. */
  function Opened(s: TerminalState): TerminalState {
    Reduce(Reduce(s, Initialize(InitialLines)), SetMaximize(false))
  }

  // ---------------------------------------------------------------------------
  // Properties of the callbacks
  // ---------------------------------------------------------------------------

  /** Blank input leaves the whole state alone and closes nothing. */
  lemma SubmitBlank(s: TerminalState, input: string, result: CommandResult)
    requires AllSpace(input)
    ensures Submit(s, input, result) == Step(s, [])
  {
  }

  /** A non-blank submit records the raw input in the history and stops
      browsing; `exit` keeps the lines and asks to close after 500 ms, `clear`
      empties the lines, anything else appends the echo and the output, in
      order. The input and the window size are untouched. */
  lemma SubmitSpec(s: TerminalState, input: string, result: CommandResult)
    requires Valid(s) && !AllSpace(input)
    ensures var st := Submit(s, input, result);
      && Valid(st.state)
      && st.state.commandHistory == KeepLast(s.commandHistory + [input], MaxHistory)
      && st.state.historyIndex == -1
      && st.state.currentInput == s.currentInput
      && st.state.isMaximized == s.isMaximized
      && (result.shouldClose ==> st.state.lines == s.lines && st.requests == [CloseAfter(500)])
      && (!result.shouldClose && result.shouldClear ==> st.state.lines == [] && st.requests == [])
      && (!result.shouldClose && !result.shouldClear ==>
            st.state.lines == s.lines + [Line("$ " + input, Command)] + result.lines && st.requests == [])
  {
    ReduceKeepsValid(s, AddToHistory(input));
    var h := Reduce(s, AddToHistory(input));
    AppendAssoc(s.lines, [EchoLine(input)], result.lines);
  }

  /** ArrowUp does nothing on an empty history; otherwise it moves one entry
      back, but not past the oldest, and shows that entry. */
  lemma RecallOlderSpec(s: TerminalState)
    requires Valid(s)
    ensures var r := RecallOlder(s);
      && Valid(r)
      && (s.commandHistory == [] ==> r == s)
      && (s.commandHistory != [] ==>
            && r.historyIndex == (if s.historyIndex + 1 < |s.commandHistory| - 1 then s.historyIndex + 1 else |s.commandHistory| - 1)
            && r.currentInput == s.commandHistory[|s.commandHistory| - 1 - r.historyIndex]
            && r.lines == s.lines && r.commandHistory == s.commandHistory && r.isMaximized == s.isMaximized)
  {
  }

  /** ArrowDown from a browsed entry moves one entry forward; from the newest
      entry it stops browsing and empties the input; when not browsing it
      does nothing. */
  lemma RecallNewerSpec(s: TerminalState)
    requires Valid(s)
    ensures var r := RecallNewer(s);
      && Valid(r)
      && (s.historyIndex > 0 ==>
            r.historyIndex == s.historyIndex - 1
            && r.currentInput == s.commandHistory[|s.commandHistory| - s.historyIndex])
      && (s.historyIndex == 0 ==> r.historyIndex == -1 && r.currentInput == "")
      && (s.historyIndex == -1 ==> r == s)
      && r.lines == s.lines && r.commandHistory == s.commandHistory && r.isMaximized == s.isMaximized
  {
  }

  /** ArrowDown undoes ArrowUp as long as ArrowUp did not stop at the oldest
      entry: back to the same index, showing the entry there, or an empty
      input when that index is "not browsing". */
  lemma NewerUndoesOlder(s: TerminalState)
    requires Valid(s) && s.historyIndex < |s.commandHistory| - 1
    ensures var r := RecallNewer(RecallOlder(s));
      && r.historyIndex == s.historyIndex
      && r.currentInput == (if s.historyIndex == -1 then "" else s.commandHistory[|s.commandHistory| - 1 - s.historyIndex])
  {
  }

  /** `n` presses of ArrowUp. */
  function OlderTimes(s: TerminalState, n: nat): TerminalState
    decreases n
  {
    if n == 0 then s else RecallOlder(OlderTimes(s, n - 1))
  }

  /** After `n >= 1` presses of ArrowUp the index has moved `n` entries back,
      capped at the oldest entry, and the input shows the entry there. */
  lemma {:induction false} OlderTimesSpec(s: TerminalState, n: nat)
    requires Valid(s) && s.commandHistory != [] && n >= 1
    ensures var r := OlderTimes(s, n);
      && Valid(r)
      && r.commandHistory == s.commandHistory
      && r.historyIndex == (if s.historyIndex + n < |s.commandHistory| - 1 then s.historyIndex + n else |s.commandHistory| - 1)
      && r.currentInput == s.commandHistory[|s.commandHistory| - 1 - r.historyIndex]
    decreases n
  {
    if n == 1 {
      RecallOlderSpec(s);
    } else {
      OlderTimesSpec(s, n - 1);
      RecallOlderSpec(OlderTimes(s, n - 1));
    }
  }

  /** Pressing ArrowUp as many times as there are entries, or more, always
      ends at the oldest command. */
  lemma OlderStabilises(s: TerminalState, n: nat)
    requires Valid(s) && s.commandHistory != [] && n >= |s.commandHistory|
    ensures OlderTimes(s, n).historyIndex == |s.commandHistory| - 1
    ensures OlderTimes(s, n).currentInput == s.commandHistory[0]
  {
    OlderTimesSpec(s, n);
  }

  /** Tab: a single match among the eleven names replaces the input, several
      add exactly one line listing them, none changes nothing. */
  lemma CompleteSpec(s: TerminalState)
    ensures var matches := Matching(AvailableCommands, ToLower(s.currentInput));
      var r := Complete(s, true);
      && (forall x :: x in matches <==> x in AvailableCommands && StartsWith(x, ToLower(s.currentInput)))
      && (|matches| == 1 ==> r == s.(currentInput := matches[0]))
      && (|matches| > 1 ==> r == s.(lines := s.lines + [Line("Available: " + JoinWith(matches, ", "), Info)]))
      && (|matches| == 0 ==> r == s)
  {
    MatchingMembers(AvailableCommands, ToLower(s.currentInput));
  }

  /** With completion switched off, Tab does nothing. */
  lemma CompleteDisabled(s: TerminalState)
    ensures Complete(s, false) == s
  {
  }

  /** Tab completes against the command names only, not their aliases. */
  lemma AvailableAreRegistryKeys()
    ensures forall x :: x in AvailableCommands <==> x in GetAllCommands(Registry)
  {
    forall x | x in GetAllCommands(Registry) ensures x in AvailableCommands {
      var i :| 0 <= i < |Registry| && Registry[i].key == x;
      PlacedAll(i);
    }
    forall x | x in AvailableCommands ensures x in GetAllCommands(Registry) {
      assert KeyPosition(x).Some?;
      KeyNamesEntry(x);
      assert GetAllCommands(Registry)[KeyPosition(x).value] == x;
    }
  }

  /** Every key handler keeps the state valid. */
  lemma KeyDownKeepsValid(s: TerminalState, e: KeyEvent, autoComplete: bool, run: string -> CommandResult)
    requires Valid(s)
    ensures Valid(KeyDown(s, e, autoComplete, run).state)
  {
    if e.key == "Enter" {
      var input := s.currentInput;
      if !AllSpace(input) { SubmitSpec(s, input, run(input)); }
    } else if e.key == "ArrowUp" {
      RecallOlderSpec(s);
    } else if e.key == "ArrowDown" {
      RecallNewerSpec(s);
    }
  }

  /** Enter always leaves an empty input. */
  lemma EnterClearsInput(s: TerminalState, e: KeyEvent, autoComplete: bool, run: string -> CommandResult)
    requires e.key == "Enter"
    ensures KeyDown(s, e, autoComplete, run).state.currentInput == ""
  {
  }

  /** Opening the terminal shows the welcome lines and resets input, index
      and window size, keeping the history. */
  lemma OpenedSpec(s: TerminalState)
    requires Valid(s)
    ensures Opened(s) == TerminalState(InitialLines, false, "", s.commandHistory, -1)
    ensures Valid(Opened(s))
  {
  }

  // ---------------------------------------------------------------------------
  // The session object
  // ---------------------------------------------------------------------------

  /** The hook's state with its callbacks. Each callback dispatches reducer
      actions in the order the hook does; the owner's `onClose` calls and the
      delayed close are recorded in `closeRequests`. `run` is the command
      evaluator, `executeCommand` of the command table. */
  class Session {
    var lines: seq<Line>
    var isMaximized: bool
    var currentInput: string
    var commandHistory: seq<string>
    var historyIndex: int
    var closeRequests: seq<CloseRequest>
    const autoComplete: bool
    const run: string -> CommandResult

    function State(): TerminalState
      reads this
    {
      TerminalState(lines, isMaximized, currentInput, commandHistory, historyIndex)
    }

    constructor(autoComplete: bool)
      ensures State() == InitialState && Valid(State())
      ensures closeRequests == [] && this.autoComplete == autoComplete
      ensures run == TerminalCommands.ExecuteCommand
    {
      lines, isMaximized, currentInput := [], false, "";
      commandHistory, historyIndex := [], -1;
      closeRequests := [];
      this.autoComplete := autoComplete;
      run := TerminalCommands.ExecuteCommand;
    }

    /** `dispatch(action)`. */
    method Dispatch(a: Action)
      modifies this
      ensures State() == Reduce(old(State()), a)
      ensures closeRequests == old(closeRequests)
    {
      match a
      case Initialize(ls) =>
        lines, currentInput, historyIndex := ls, "", -1;
      case AddLines(ls) =>
        lines := lines + ls;
      case ClearLines =>
        lines := [];
      case SetInput(input) =>
        currentInput := input;
      case AddToHistory(c) =>
        commandHistory, historyIndex := KeepLast(commandHistory + [c], MaxHistory), -1;
      case SetHistoryIndex(i) =>
        historyIndex := i;
      case ToggleMaximize =>
        isMaximized := !isMaximized;
      case SetMaximize(m) =>
        isMaximized := m;
    }

    /** The `executeCommand` callback. */
    method ExecuteCommand(input: string)
      requires Valid(State())
      modifies this
      ensures var st := Submit(old(State()), input, run(input));
        State() == st.state && closeRequests == old(closeRequests) + st.requests
      ensures Valid(State())
    {
      if !AllSpace(input) {
        SubmitSpec(State(), input, run(input));
      }
      if AllSpace(input) {
        return;
      }
      Dispatch(AddToHistory(input));
      var result := run(input);
      if result.shouldClose {
        closeRequests := closeRequests + [CloseAfter(CloseDelayMs)];
        return;
      }
      if result.shouldClear {
        Dispatch(ClearLines);
        return;
      }
      Dispatch(AddLines([EchoLine(input)] + result.lines));
    }

    /** `handleKeyDown(e)`. */
    method HandleKeyDown(e: KeyEvent)
      requires Valid(State())
      modifies this
      ensures var st := KeyDown(old(State()), e, autoComplete, run);
        State() == st.state && closeRequests == old(closeRequests) + st.requests
      ensures Valid(State())
    {
      KeyDownKeepsValid(State(), e, autoComplete, run);
      if e.key == "Enter" {
        ExecuteCommand(currentInput);
        Dispatch(SetInput(""));
      } else if e.key == "ArrowUp" {
        if |commandHistory| > 0 {
          var n := if historyIndex + 1 < |commandHistory| - 1 then historyIndex + 1 else |commandHistory| - 1;
          var command := Recalled(commandHistory, n);
          Dispatch(SetHistoryIndex(n));
          Dispatch(SetInput(command));
        }
      } else if e.key == "ArrowDown" {
        if historyIndex > 0 {
          var n := historyIndex - 1;
          var command := Recalled(commandHistory, n);
          Dispatch(SetHistoryIndex(n));
          Dispatch(SetInput(command));
        } else if historyIndex == 0 {
          Dispatch(SetHistoryIndex(-1));
          Dispatch(SetInput(""));
        }
      } else if e.key == "Tab" {
        if autoComplete {
          var matches := Matching(AvailableCommands, ToLower(currentInput));
          if |matches| == 1 {
            Dispatch(SetInput(matches[0]));
          } else if |matches| > 1 {
            Dispatch(AddLines([CompletionLine(matches)]));
          }
        }
      } else if e.key == "Escape" {
        closeRequests := closeRequests + [CloseNow];
      } else if e.key == "l" && (e.ctrlKey || e.metaKey) {
        Dispatch(ClearLines);
      } else if e.key == "c" && (e.ctrlKey || e.metaKey) {
        Dispatch(SetInput(""));
      }
    }

    /** Opening the terminal. */
    method Open()
      modifies this
      ensures State() == Opened(old(State())) && closeRequests == old(closeRequests)
    {
      Dispatch(Initialize(InitialLines));
      Dispatch(SetMaximize(false));
    }

    /** `toggleMaximize()`. */
    method ToggleMaximized()
      modifies this
      ensures State() == old(State()).(isMaximized := !old(isMaximized)) && closeRequests == old(closeRequests)
    {
      Dispatch(ToggleMaximize);
    }

    /** `clearTerminal()`. */
    method ClearTerminal()
      modifies this
      ensures State() == old(State()).(lines := []) && closeRequests == old(closeRequests)
    {
      Dispatch(ClearLines);
    }

    /** `updateInput(input)`. */
    method UpdateInput(input: string)
      modifies this
      ensures State() == old(State()).(currentInput := input) && closeRequests == old(closeRequests)
    {
      Dispatch(SetInput(input));
    }
  }
}
