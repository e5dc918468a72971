# A verified model of the portfolio terminal

The site has a simulated terminal. This project models its logic in Dafny and proves what that logic promises. It covers four parts.

- **The command table and dispatcher** (`src/utils/terminalCommands.ts`, module `TerminalCommands` in `commands.dfy`).
  - `executeCommand` trims the input.
  - It lowercases the whole input, arguments included.
  - It splits on whitespace runs, then looks the first word up, first as a key and then among the aliases in table order.
  - It runs the handler, turns a thrown error into exit code 1, and answers with exit code 127 and up to three suggestions when the name is unknown.
  - The module also models the line classes, the command and alias listings, and the command search.
- **The terminal session** (`src/hooks/useTerminal.ts`, module `TerminalSession` in `terminal.dfy`).
  - The reducer is a function over the session state.
  - The hook's callbacks live in the class `Session`. These are submitting a line, the keyboard handler, opening the terminal, maximise, clear and input. Each callback issues reducer actions in the hook's order, and each method is proved equal to a pure step function. The lemmas are stated about those step functions.
- **`combineClasses`** (`src/utils/terminalStyles.ts`, module `TerminalStyles` in `styles.dfy`). Its result is the class tokens of the truthy arguments, in order, separated by single spaces.
- **The error boundary's retry rule** (`src/components/common/ErrorBoundary.tsx`, module `ErrorBoundaryModel` in `errorboundary.dfy`).
  - The class `ErrorBoundary` holds the catch, retry, timer-fire and unmount transitions over its fields. Each is proved against a pure transition function.
  - The lemmas cover:
    - the backoff schedule;
    - the runtime's timers, modelled by id: `handleRetry` clears the last timer before it sets a new one, so at most one retry timer is ever scheduled, and only for an allowed retry;
    - the bound on the retry count over any sequence of events;
    - the fallback buttons.

The JavaScript string built-ins the code relies on are in module `Text` (`text.dfy`). These are `trim`, `split(/\s+/)`, `replace(/\s+/g, " ")`, `join`, `toLowerCase`, `startsWith` and `includes`. They are connected through the "words" of a string: its maximal runs of non-whitespace characters. `wrappers.dfy` holds the `Option` type that stands for `null`/`undefined`.

The whole trimmed input is lowercased (`src/utils/terminalCommands.ts:357`), so the handlers receive lowercased arguments. `skills` lowercases `args[0]` again before comparing it with `frontend` (line 157).

## Model

| member | source | states |
|---|---|---|
| Text.TrimIsSlice | src/utils/terminalCommands.ts:345 | the result is a slice `s[a..b]` with only whitespace before `a` and after `b`, and it is empty or starts and ends with a non-whitespace character: exactly the leading and trailing whitespace is removed |
| Text.TrimEmpty | src/utils/terminalCommands.ts:345-347 | trimming gives the empty string exactly when the input is all whitespace |
| Text.TrimOfTrimmed | src/utils/terminalStyles.ts:61 | trimming a string without whitespace at either end returns it unchanged |
| Text.LowerAllSpace | src/utils/terminalCommands.ts:345-357 | lowercasing keeps a string blank or non-blank |
| Text.LowerOfTrim | src/utils/terminalCommands.ts:345-357 | lowercasing then trimming equals trimming then lowercasing |
| Text.WordsAreWords | src/utils/terminalCommands.ts:357 | every word is non-empty and free of whitespace |
| Text.WordsOfTrim | src/utils/terminalCommands.ts:345-357 | trimming does not change the words of a string |
| Text.WordsOfConcat | src/utils/terminalStyles.ts:61 | the words of `a + b` are those of `a` followed by those of `b` when `b` is empty or starts with whitespace |
| Text.SplitTrimmedIsWords | src/utils/terminalCommands.ts:357 | splitting a non-empty string without whitespace at its ends on `/\s+/` gives exactly its words |
| Text.CollapseShape | src/utils/terminalStyles.ts:61 | after `replace(/\s+/g, " ")` every whitespace character is a space not followed by more whitespace; the result is empty only for empty input |
| Text.WordsOfCollapse | src/utils/terminalStyles.ts:61 | collapsing whitespace runs does not change the words |
| Text.TrimSingleSpaced | src/utils/terminalStyles.ts:61 | trimming a single-spaced string gives the normal form |
| Text.NormalIsJoinOfWords | src/utils/terminalStyles.ts:61 | a string in normal form is its words joined by single spaces |
| Text.JoinOfWordsIsNormal | src/utils/terminalStyles.ts:61 | words joined by single spaces are in normal form and split back into the same words |
| Text.WordsOfJoin | src/utils/terminalStyles.ts:61 | joining strings with a whitespace separator gives the concatenation of their words |
| Text.TrimCollapseIsJoinOfWords | src/utils/terminalStyles.ts:61 | collapse then trim equals the words joined by single spaces |
| Text.Take | src/utils/terminalCommands.ts:385-387 | `substring(0, n)` / `slice(0, n)` is the prefix of length `min(n, length)` |
| TerminalStyles.KeptAppend | src/utils/terminalStyles.ts:61 | `filter(Boolean)` distributes over concatenation and keeps a single argument exactly when it is a non-empty string, so it keeps the truthy arguments' strings in order |
| TerminalStyles.KeptMembers | src/utils/terminalStyles.ts:61 | a string is kept exactly when it is the string of some truthy argument |
| TerminalStyles.CombineClasses | src/utils/terminalStyles.ts:58-62 | the result is in normal form: no whitespace at either end, every whitespace a single space |
| TerminalStyles.KeptTokens | src/utils/terminalStyles.ts:61 | the words of the kept strings are the tokens of all arguments; falsy arguments carry none |
| TerminalStyles.ArgTokensAppend | src/utils/terminalStyles.ts:58-62 | the tokens of concatenated argument lists are the concatenated tokens |
| TerminalStyles.TokensAreWords | src/utils/terminalStyles.ts:58-62 | every class token is a non-empty whitespace-free string |
| TerminalStyles.CombineIsJoinOfTokens | src/utils/terminalStyles.ts:58-62 | the result is the arguments' class tokens, in argument order, joined by single spaces |
| TerminalStyles.CombineTokens | src/utils/terminalStyles.ts:58-62 | the tokens of the result are exactly the tokens of the arguments, in order |
| TerminalStyles.CombineShape | src/utils/terminalStyles.ts:61 | no whitespace at either end, every whitespace character is ' ', never two whitespace characters in a row |
| TerminalStyles.NoTokenArgIsIgnored | src/utils/terminalStyles.ts:61 | inserting an argument without tokens anywhere does not change the result |
| TerminalStyles.FalsyIsIgnored | src/utils/terminalStyles.ts:61 | inserting `undefined`, `false` or `""` anywhere does not change the result |
| TerminalStyles.CombineOfNormal | src/utils/terminalStyles.ts:61 | a normalised class string passes through unchanged |
| TerminalStyles.CombineIdempotent | src/utils/terminalStyles.ts:58-62 | applying `combineClasses` to its own result changes nothing |
| TerminalCommands.Run | src/utils/terminalCommands.ts:59-338 | over the eleven result objects the handlers return: every exit code is 0, `shouldClear` holds for the `clear` handler alone, which returns no lines, and `shouldClose` for the `exit` handler alone |
| TerminalCommands.SkillsOutput | src/utils/terminalCommands.ts:151-197 | `skills frontend` (any letter case) gives the frontend block, anything else the overview, which mentions `skills frontend` |
| TerminalCommands.FindKey | src/utils/terminalCommands.ts:360 | the first entry whose key is the name, or none when no key is |
| TerminalCommands.FindAlias | src/utils/terminalCommands.ts:363-367 | the first entry in table order listing the name as an alias, or none |
| TerminalCommands.LookupFound | src/utils/terminalCommands.ts:360-367 | lookup succeeds exactly when some entry has the name as key or alias |
| TerminalCommands.NameAndAliasesFindEntry | src/utils/terminalCommands.ts:360-367 | in a well-formed table a command's key and each of its aliases look up to that command |
| TerminalCommands.AliasRunsLikeName | src/utils/terminalCommands.ts:360-382 | an alias dispatches to the same handler, with the same outcome, as the command's name |
| TerminalCommands.PlacedAll | src/utils/terminalCommands.ts:59-338 | each registry entry sits where the position tables say, and none of its aliases is a key |
| TerminalCommands.RegistryWellFormed | src/utils/terminalCommands.ts:59-338 | every key equals its descriptor's name, keys are distinct, no alias is a key, no alias is shared |
| TerminalCommands.RegistryLookup | src/utils/terminalCommands.ts:360-367 | lookup in the registry: the entry a key names, else the one listing the alias, else nothing |
| TerminalCommands.KeyNamesEntry | src/utils/terminalCommands.ts:59-338 | a name with a key position is that entry's key |
| TerminalCommands.AliasNamesEntry | src/utils/terminalCommands.ts:59-338 | a name with an alias position is among that entry's aliases |
| TerminalCommands.AllCommandsRunnable | src/utils/terminalCommands.ts:438-440 | the listing has one name per entry; a name is listed exactly when lookup finds it as a key; in a well-formed table the `i`-th listed name runs the `i`-th command |
| TerminalCommands.TokensAreWords | src/utils/terminalCommands.ts:345-357 | for non-blank input the split of the lowercased trimmed input is the words of the lowercased input, at least one |
| TerminalCommands.DispatchCases | src/utils/terminalCommands.ts:344-404 | for any table and handlers: blank input gives one blank line, code 0, no flags; otherwise the first word of the lowercased input is looked up with the other words as arguments |
| TerminalCommands.ResolveCases | src/utils/terminalCommands.ts:369-403 | unknown name: code 127, "Command not found" error, suggestion info line, blank line; throwing handler: code 1, "Error executing command: " line, blank line; otherwise the handler's own result |
| TerminalCommands.MatchingMembers | src/utils/terminalCommands.ts:385-386 | the filter keeps exactly the keys with the prefix |
| TerminalCommands.MatchingAppend | src/utils/terminalCommands.ts:385-386 | the filter keeps table order |
| TerminalCommands.SuggestionsSpec | src/utils/terminalCommands.ts:385-392 | exactly `min(3, n)` suggestions for `n` matching keys, each a key starting with the name's first two characters, the first such keys in table order, and all of them when there are at most three |
| TerminalCommands.ExecuteCommandCases | src/utils/terminalCommands.ts:344-404 | on the built-in table: blank input, a known name running its handler, or not found; exit code 0 or 127, 127 exactly for unknown names; the flags come from the `clear` and `exit` handlers |
| TerminalCommands.ClearHandler | src/utils/terminalCommands.ts:110-121 | exactly `clear` and `cls` reach the clear handler |
| TerminalCommands.ExitHandler | src/utils/terminalCommands.ts:322-337 | exactly `exit`, `quit` and `bye` reach the exit handler |
| TerminalCommands.OnlyClearClears | src/utils/terminalCommands.ts:110-121 | `shouldClear` holds exactly for `clear`/`cls`, and then no lines are returned |
| TerminalCommands.OnlyExitCloses | src/utils/terminalCommands.ts:322-337 | `shouldClose` holds exactly for `exit`/`quit`/`bye` |
| TerminalCommands.ContainsAt | src/utils/terminalCommands.ts:447-454 | `includes` finds every slice of a string |
| TerminalCommands.LineClassName | src/utils/terminalCommands.ts:410-432 | every class string begins with the base classes and a space |
| TerminalCommands.LineClassNameInjective | src/utils/terminalCommands.ts:410-432 | two lines get the same class string exactly when they have the same kind; output is white |
| TerminalCommands.AliasesMembers | src/utils/terminalCommands.ts:442-445 | the alias listing holds exactly the aliases of some entry |
| TerminalCommands.SearchMembers | src/utils/terminalCommands.ts:447-454 | the search keeps exactly the keys whose key or lowercased description contains the lowercased query |
| TerminalCommands.SearchSpec | src/utils/terminalCommands.ts:447-454 | a key is found exactly when its key or lowercased description contains the lowercased query |
| TerminalCommands.SearchEmpty | src/utils/terminalCommands.ts:447-454 | the empty query finds every command, in table order |
| TerminalSession.KeepLastSpec | src/hooks/useTerminal.ts:106-108 | `slice(-n)` keeps the newest `min(n, length)` elements, in order |
| TerminalSession.ReduceKeepsValid | src/hooks/useTerminal.ts:76-134 | every action keeps `-1 <= historyIndex < |history|` and `|history| <= 50`, given an in-range explicit index |
| TerminalSession.AddToHistorySpec | src/hooks/useTerminal.ts:104-111 | the command is appended, at most 50 entries are kept with the oldest evicted first, the index resets to -1, nothing else changes |
| TerminalSession.InitializeKeepsHistory | src/hooks/useTerminal.ts:78-84 | initialising replaces the lines, empties the input, resets the index and keeps history and window size |
| TerminalSession.SubmitBlank | src/hooks/useTerminal.ts:175-176 | blank or whitespace-only input leaves the whole state unchanged and schedules nothing |
| TerminalSession.SubmitSpec | src/hooks/useTerminal.ts:175-213 | a non-blank submit records the raw input in the capped history with index -1; close keeps the lines and schedules the close after 500 ms; clear empties the lines; otherwise the lines gain the `$ ` echo then the output |
| TerminalSession.RecallOlderSpec | src/hooks/useTerminal.ts:283-295 | ArrowUp does nothing on an empty history, else moves to `min(index + 1, |history| - 1)` and shows that entry |
| TerminalSession.RecallNewerSpec | src/hooks/useTerminal.ts:297-309 | ArrowDown moves one entry newer, from the newest entry to index -1 and an empty input, and does nothing at -1 |
| TerminalSession.NewerUndoesOlder | src/hooks/useTerminal.ts:283-309 | ArrowDown after an ArrowUp that did not stop at the oldest entry returns to the same index and its entry |
| TerminalSession.OlderTimesSpec | src/hooks/useTerminal.ts:283-295 | after `n >= 1` presses of ArrowUp the index is `min(index + n, |history| - 1)` and the input shows that entry |
| TerminalSession.OlderStabilises | src/hooks/useTerminal.ts:283-295 | pressing ArrowUp at least `|history|` times always ends at the oldest command |
| TerminalSession.CompleteSpec | src/hooks/useTerminal.ts:311-331 | the matches are exactly the eleven names starting with the lowercased input; one match replaces the input, several add one "Available: " info line, none changes nothing |
| TerminalSession.CompleteDisabled | src/hooks/useTerminal.ts:311-314 | with completion off, Tab changes nothing |
| TerminalSession.AvailableAreRegistryKeys | src/hooks/useTerminal.ts:167-169 | the completion names are exactly the command table's keys, without aliases |
| TerminalSession.KeyDownKeepsValid | src/hooks/useTerminal.ts:272-361 | every key handler keeps the history invariant |
| TerminalSession.EnterClearsInput | src/hooks/useTerminal.ts:277-281 | Enter always leaves an empty input |
| TerminalSession.OpenedSpec | src/hooks/useTerminal.ts:248-266 | opening shows the welcome lines, empties the input, resets the index and the maximised flag, and keeps the history |
| TerminalSession.Session.constructor | src/hooks/useTerminal.ts:145-151 | the session starts empty, not maximised, with index -1, and evaluates commands with the command table's `executeCommand` |
| TerminalSession.Session.Dispatch | src/hooks/useTerminal.ts:76-134 | the fields become the reducer's result |
| TerminalSession.Session.ExecuteCommand | src/hooks/useTerminal.ts:175-231 | the new state and close requests are those of the submit step on the evaluated result, and the history invariant is kept |
| TerminalSession.Session.HandleKeyDown | src/hooks/useTerminal.ts:272-361 | the new state and close requests are those of the key step, and the history invariant is kept |
| TerminalSession.Session.Open | src/hooks/useTerminal.ts:248-252 | the new state is that of opening |
| TerminalSession.Session.ToggleMaximized | src/hooks/useTerminal.ts:367-369 | only the maximised flag flips |
| TerminalSession.Session.ClearTerminal | src/hooks/useTerminal.ts:371-373 | only the lines are emptied |
| TerminalSession.Session.UpdateInput | src/hooks/useTerminal.ts:375-377 | only the input changes |
| ErrorBoundaryModel.RetryDelaySchedule | src/components/common/ErrorBoundary.tsx:143-144 | the delays are 1000, 2000 and 4000 ms, each twice the one before |
| ErrorBoundaryModel.InitialValid | src/components/common/ErrorBoundary.tsx:35-47 | a fresh boundary has a zero count and no timer scheduled |
| ErrorBoundaryModel.AtMostOnePending | src/components/common/ErrorBoundary.tsx:138-146 | at most one retry timer is scheduled, and one is exactly when the last timer set has neither fired nor been cleared |
| ErrorBoundaryModel.CaughtSpec | src/components/common/ErrorBoundary.tsx:49-57 | catching sets the flag and records the thrown value, a falsy one as no error, leaving the count and the timers |
| ErrorBoundaryModel.RetriedSpec | src/components/common/ErrorBoundary.tsx:129-154 | at or past the maximum nothing changes; otherwise the old timer is cleared and exactly one fresh timer is scheduled, with delay `2^retryCount * 1000`, and nothing else of the boundary changes |
| ErrorBoundaryModel.FiredSpec | src/components/common/ErrorBoundary.tsx:146-153 | firing clears the error and its info and adds one to the count, never past the maximum; no timer stays scheduled and the fired id is kept |
| ErrorBoundaryModel.UnmountedSpec | src/components/common/ErrorBoundary.tsx:238-242 | unmounting leaves no timer scheduled and changes nothing else |
| ErrorBoundaryModel.ApplySpec | src/components/common/ErrorBoundary.tsx:49-242 | each event keeps the invariant and raises the count plus the scheduled timers by at most one, only for a retry |
| ErrorBoundaryModel.TraceSpec | src/components/common/ErrorBoundary.tsx:129-154 | over any sequence of events the invariant holds and the count plus the scheduled timers grows by at most the retries asked for |
| ErrorBoundaryModel.RetryCountBounded | src/components/common/ErrorBoundary.tsx:129-154 | from a fresh boundary the count never exceeds `maxRetries` nor the number of retries asked for, and at most one timer is ever scheduled |
| ErrorBoundaryModel.FallbackButtonsSpec | src/components/common/ErrorBoundary.tsx:205-221 | Reload shows exactly when the count reached the maximum, Try Again exactly when retry is enabled and it has not, never both |
| ErrorBoundaryModel.FalsyErrorShowsNothing | src/components/common/ErrorBoundary.tsx:49-57 | a falsy thrown value still sets `hasError`, but the fallback then renders nothing and offers no button (line 160); any message gives a fallback |
| ErrorBoundaryModel.TryAgainSchedules | src/components/common/ErrorBoundary.tsx:205-209 | pressing a visible Try Again leaves exactly one timer scheduled, with the backoff delay |
| ErrorBoundaryModel.ErrorBoundary.constructor | src/components/common/ErrorBoundary.tsx:37-47 | no error, zero count, no timer; `maxRetries` defaults to 3 and `enableRetry` to true |
| ErrorBoundaryModel.ErrorBoundary.SetTimeout | src/components/common/ErrorBoundary.tsx:146 | a timer with a fresh id is scheduled and its id is returned |
| ErrorBoundaryModel.ErrorBoundary.ClearTimeout | src/components/common/ErrorBoundary.tsx:140 | the timer is no longer scheduled |
| ErrorBoundaryModel.ErrorBoundary.CatchError | src/components/common/ErrorBoundary.tsx:49-57 | the fields become the caught state and the invariant holds |
| ErrorBoundaryModel.ErrorBoundary.DidCatch | src/components/common/ErrorBoundary.tsx:79 | the error info is recorded and the invariant holds |
| ErrorBoundaryModel.ErrorBoundary.HandleRetry | src/components/common/ErrorBoundary.tsx:129-154 | the last timer is cleared before a new one is set, as the retry rule says; the invariant holds and an allowed retry leaves exactly one timer scheduled |
| ErrorBoundaryModel.ErrorBoundary.FireRetryTimer | src/components/common/ErrorBoundary.tsx:146-153 | the fields become the fired state and the invariant holds |
| ErrorBoundaryModel.ErrorBoundary.Unmount | src/components/common/ErrorBoundary.tsx:238-242 | the last timer is cleared, no timer stays scheduled and the invariant holds |

## Left out

- Line ids and timestamps (`Date.now()`, `Math.random()`, `new Date()`) are not modelled. A line is its content and its kind.
- `toLowerCase` is modelled for the ASCII letters only. Other characters pass through unchanged.
- Strings are sequences of code points, not UTF-16 code units. `substring(0, 2)` of a name that starts with a character outside the Basic Multilingual Plane therefore differs.
- Lookup by `terminalCommands[commandName]` finds only the table's own keys. JavaScript would also find inherited properties such as `constructor`.
- TerminalCommands.Run: the built-in handlers never throw, so the thrown-error path is proved only for an arbitrary handler function passed to `Dispatch`.
- The `try`/`catch` blocks inside the hook are not modelled. For `executeCommand` (`src/hooks/useTerminal.ts:215-229`) the catch reports the error and adds an `Error: <message>` line; for `handleKeyDown` and the opening effect it only reports. None of them can run here: `executeTerminalCommand` catches a handler's error itself (`src/utils/terminalCommands.ts:370-382`), the built-in handlers never throw, and no other step in the model can throw.
- `onClose`, and the 500 ms timer scheduled after `exit`, appear as close requests recorded by the session. They do not model real time.
- Timer ids are handed out by a counter starting at 1. The runtime's ids are only known to be positive and distinct from the ids of live timers. Timers of other components are not part of the model.
- The focus timer, scrolling, `preventDefault`, React batching and `stateRef` staleness are not modelled. Each dispatch takes effect at once.
- Error reporting (`componentDidCatch`'s report, `gtag`, `fetch`), `errorId`, the rendering of the fallback and the "(n/max)" label on Try Again are not modelled. Only which buttons are shown is.
- TerminalCommands.SkillsOutput checks only the heading line of each block and the hint in the overview. The other output lines are constants copied from the source.
- The `TERMINAL_STYLES` table and every other module of the site are not modelled.
