# A verified model of NSH, the MML parser, the FM synthesiser and the RLE row encoder

This project models five parts of a collection of embedded applications and proves what they are for.

* **The NSH script interpreter** reads a script one line at a time. It has no syntax tree: two bounded
  stacks, an "is this command enabled" test and a seek back to the top of the loop are all it uses to run nested
  `if/then/else/fi` and `while|until/do/done`. `NshControl` holds the state and the operations, `NshScript` the
  machine and a recursive evaluator, `NshRefinement` the proof that they run the same commands, `NshAstray` and
  `NshExactness` where that stops being true, `NshIgnore` what the ignore-errors flag changes about that, `NshNest` and
  `NshRepair` a wider family on which it is still true, `NshAbort` what a script that is given up leaves behind, and
  `NshParser` the same operations on arrays updated in place.
* **NSH text and tables**: quoting and escapes (`NshEscape`), splitting off an argument (`NshArgument`) and reading
  written words back (`NshQuote`), splitting a line into commands (`NshLine`), the packed variable block (`NshVars`),
  `set`/`unset`/`export` (`NshEnv`), and the alias table with its expansion marks (`NshAlias`), read as a map
  (`NshAliasBook`) and in place (`NshAliasTable`). `NshBasics` holds what they share.
* **The MML music parser**: `MmlModel`, tuplets (`MmlTuplet`, `MmlTotal`), whole scores and durations (`MmlScore`),
  chains of lengths (`MmlChain`), what each token means (`MmlCalls`), scores written and read back (`MmlPrint`),
  divisions by zero (`MmlFault`), and the parser in place (`MmlParser`).
* **The FM synthesiser**: waves (`FmWave`, `FmShape`), envelopes (`FmEnvelope`), the tree of operators (`FmOperator`), a
  sample as a recurrence (`FmRecurrence`), and whole sounds (`FmSound`).
* **The run-length encoder** for image rows (`RleRow`).

Code that updates things in place is modelled by classes, arrays and loops. Each such method is proved to do
what a function on values says, and the theorems are about those functions. For the main ones a second
description that does not mention them is proved to agree: a map, a recurrence, a straight line, a printed text, or the
exact rounding of an exact value.

## Conventions

* A command run from a script is an event: the line it stands on, its arguments, and the `$?` it sees. The outside
  world is any function from the events so far to success or failure of the last one. Theorems hold for every world.
* A run is followed for a `budget` of jumps back to the top of a loop. The budget is universally quantified, so
  theorems cover endless loops too: with any budget both sides run the same commands and run out at the same
  moment. `MoreBudget` shows that a run that ends does not depend on it.
* Allocators, `setenv` and the callback of `nsh_foreach_var` are parameters: their answers are arbitrary. Where it
  matters, `Refused` says that the environment accepts no name with an equal sign, as POSIX.1 lets `setenv` do.
* Integers are unbounded and the floating-point phase of an operator is a real number. `/` on `int` truncates as in
  C (`CArith`), and `>>` on a negative number is read as rounding down.
* A C string of length `n` in a buffer is `n` characters that are not NUL, followed by NUL.

## Where the machine and the evaluator part

The evaluator is the meaning a reader expects. The code meets it on the fragment `Good`: no loop stands
directly in a loop body (without an `if` between them) and no `break` that can be reached stands under an `if`
inside a loop body.

* **Loops in loop bodies.** `nsh_loop_enabled` only looks at the top slot. A loop condition is therefore run
  even when the loop body around it is being skipped (`StoppedLoopRuns`).
* **`break` under an `if`.** `cmd_break` puts back the if-index saved by the loop, so each `else` or `fi` that follows
  meets a frame too few (`Astray`): it changes or closes a frame that is not its own, or is a syntax error.
  `BreakUnderIfDisagrees` gives a script on which a command in a branch not taken is run.

`ExactFragment` proves that machine and evaluator agree in every world *if and only if* the script is in the
fragment. It is proved for each setting of the ignore-errors flag, on the scripts that are `Clear` under that setting:

* With the flag clear, no loop that is itself inside a loop has a `break` under an `if`.
* With the flag set, no loop at all has one, so that only loops in loop bodies are at stake. Here one more `break` is
  enough to cover a lost frame up: the stray `fi` spoils `$?` and nothing else, and a successful `break` at the end of
  `while a; do; if b; then; break; fi; done; break` makes it good. `IgnoringYetAgrees` proves that machine and
  evaluator agree on this script in every world with the flag set, and do not with the flag clear.

Beyond that the fragment is sufficient (`ScriptRefinement`) but not necessary: the `break` of an outer loop can put
right what the `break` of an inner loop spoiled. `WiderRefinement` proves agreement for a whole family of such nests,
added to the fragment wherever an `if` and no loop is around them:
`while a; do; p; if b; then; q; while c; do; r; if d; then; s; break; x; else; els; fi; t; done; u; fi; v; break; w; done`.
All other parts are arbitrary blocks: those that are run are in the fragment, those that are never run have no
direct loop, and `v` is commands only. The inner `break` makes the `fi` of `d` and the `fi` of `b` close the frame of
`b` and the frame around the nest; the outer `break` puts the index back on that frame, whose slot still holds
its old contents. `OutsideYetAgrees` gives the smallest member, which is outside the fragment.

## Surprises in the code

The model follows the code in these places too.

* A script that is given up because a command failed leaves every `if` and loop around that command open in the
  session (`AbortedExactly` counts them; `IfStaysOpen` is an example). One that gets to its end does not.
* `export` without a value, of a name that is no shell variable, makes the exported value empty, even if the name had
  been exported with a value before (`ExpandsAfter`).
* A failed `nsh_setvar` has already removed the old binding (`VarStore.SetVar`).
* A name with an equal sign is accepted by `nsh_setvar`. It can leave two records of one name
  (`StaysDistinctExactly`, `EqualSignInName`). From then on even a name without an equal sign may read back wrong
  (`TwoOfOneName`; `RoundTripExactly` is the condition for every block and name), and `export` may leave the name in
  both stores, where `$name` depends on which is searched first: `set a x; set a=b c; export a` (`SetSetExport`).
  `ActApartExactly` says of each command exactly when it does that, `RunApartExactly` of whole runs.
* If a name is the whole text of a stored record, `nsh_cmpname` compares past both terminators
  (`ComparisonStops`: in no other case). `set a=b c`, then looking `a=b=c` up, does that (`SearchOverruns`). The in-place
  methods accept such names and report the case in `over`.
* `sawtooth_wave` reaches 32768, one more than the largest `int16_t`, in the last two steps of a turn
  (`WavesBounded`), and so does an operator at full level (`SignalBounded`).
* Negative angles are mirrored instead of taken modulo a turn. That is right for the sine and the triangle; the sawtooth
  then falls where it should rise (`PeriodicExactly`).
* The length behind a tuplet's `}` is read twice. If the tuplet changes the default length to or from something that is no
  note value, and the length begins with dots and a plus, the second reading stops early (`TupletReadsOver`, `TornLength`).
* A score may set the tempo to zero, and the next length divides by it (`ZeroTempo`). `Faults` is the exact condition
  for a call; the in-place parser records it in `faulted`, after which a result means nothing.
* The dots of a length are not forgotten at a plus, and a term worth nothing clears the sum (`ChainLength`).
* `nsh_parse` hands the last command of a line over together with its comment; `nsh_argument` then drops it.
* With pipelines configured, an argument that begins with `>` or `<` is scanned as an ordinary word: the redirection
  noted first is overwritten further down (`NextInPlace`).
* An alias that is removed while it is being expanded and then defined again is removed all the same when the
  command ends (`RemovedIsFreed`).
* In a chord that is never closed the parser may step over the terminator (`OverrunExactly` says exactly when).

## Model

| member | source | states |
|---|---|---|
| NshRefinement.ScriptRefinement | nshlib/nsh_parse.c:1817-2248 | For every script in the fragment within the nesting depth, every world, every starting `$?` and every budget, with or without the ignore-errors flag, the two-stack machine with seek-back gives exactly the evaluator's result: the same commands in the same order with the same `$?`, and the same way of ending |
| NshRefinement.SessionRefinement | nshlib/nsh_parse.c:438-495 | The same from every session state that is between commands, with whatever room is left on the stacks; and a script that gets to its end leaves both indices and every slot at or below them as they were |
| NshAbort.AbortedExactly | nshlib/nsh_script.c:145-188 | A script of the fragment that is given up at a failed command leaves exactly the ifs and loops around that command open, on stacks otherwise unchanged; so the stacks are as before if and only if the command stands in no `if` and no loop |
| NshAbort.IfStaysOpen | nshlib/nsh_script.c:145-188 | `if a; then; b; fi` where `b` fails: the if-index is one higher afterwards |
| NshRefinement.SkipBlock | nshlib/nsh_parse.c:1844-1886 | A block of any shape in an untaken branch runs no command, goes straight through without a jump, leaves `np_fail` alone and gives back both indices and every slot at or below them |
| NshRefinement.SkipOff | nshlib/nsh_parse.c:1817-1836 | The same for a loop body that is being skipped, if no loop stands directly in it |
| NshRefinement.SimLoop | nshlib/nsh_parse.c:1942-2053 | A loop is followed for all its iterations: condition, body, `break`, seek back, and end |
| NshRefinement.SimIf | nshlib/nsh_parse.c:2137-2225 | An `if` with or without `else` is followed: one branch runs as the evaluator says, the other is skipped, the frame is given back |
| NshExactness.ExactFragment | nshlib/nsh_parse.c:1817-2248 | For each setting of the ignore-errors flag, on the scripts that are clear under it (flag clear: no loop inside a loop has a `break` under an `if`; flag set: no loop has one), machine and evaluator agree in all worlds if and only if no loop stands directly in a loop body and no `break` under an `if` of a loop body |
| NshExactness.OutsideDisagrees | nshlib/nsh_parse.c:1817-2248 | Such a script outside the fragment has a world in which the two runs end differently, for each setting of the flag |
| NshIgnore.IgnoringYetAgrees | nshlib/nsh_parse.c:2197-2225 | With the ignore-errors flag set, machine and evaluator agree in every world on `while a; do; if b; then; break; fi; done; break`, which is outside the fragment; with the flag clear they do not |
| NshRepair.WiderRefinement | nshlib/nsh_parse.c:1817-2248 | With either setting of the flag, machine and evaluator agree in all worlds on every script built from the fragment and, under an `if`, nests of two loops with a `break` under an `if` of the inner one and a `break` at the end of the outer body |
| NshRepair.OuterLoop | nshlib/nsh_parse.c:3018-3028 | Such a nest gives what the evaluator says and gives both stacks back |
| NshRepair.GoodIsWider | nshlib/nsh_parse.c:1817-2248 | The wider fragment holds the whole fragment |
| NshNest.InnerLoop | nshlib/nsh_parse.c:1942-2053 | The inner loop is followed through all its passes; it is left with all frames or with one short |
| NshNest.BreakOut | nshlib/nsh_parse.c:3018-3028 | From the inner `break` to behind its `done`: nothing is run and exactly one frame is lost, with or without an `else` on the way |
| NshRepair.OutsideYetAgrees | nshlib/nsh_parse.c:3018-3028 | A script outside the fragment on which machine and evaluator agree in every world, flag and budget |
| NshRepair.BreakRepairs | nshlib/nsh_parse.c:3018-3028 | The outer `break` restores the if-index whether or not the inner one lost a frame |
| NshExactness.StoppedLoopRuns | nshlib/nsh_parse.c:1817-1836 | A loop standing directly in a skipped loop body has its condition run all the same |
| NshExactness.NeverAborted | nshlib/nsh_script.c:163-183 | In the steering world no command fails, so the evaluator never gives up |
| NshExactness.BreakUnderIfDisagrees | nshlib/nsh_parse.c:3009-3035 | A script with `break` under an `if` for which the evaluator runs three commands and the machine at least one more |
| NshAstray.BreakGoesAstray | nshlib/nsh_parse.c:3018-3028 | `break` under an `if` of the outermost loop stops the loop and leaves fewer frames than ifs are open |
| NshAstray.PassBlock | nshlib/nsh_parse.c:1894-2248 | When no command fails and every loop is told to stop, the machine passes a block of any shape without error or jump and gives both stacks back |
| NshAstray.AstrayElse | nshlib/nsh_parse.c:2178-2193 | An `else` met a frame short is a syntax error or changes a frame that is not its own |
| NshAstray.AstrayFi | nshlib/nsh_parse.c:2197-2225 | A `fi` met a frame short is a syntax error or leaves the run still a frame short |
| NshAstray.AstrayDone | nshlib/nsh_parse.c:1999-2053 | The `done` of a loop left by such a `break` does not bring the lost frames back |
| NshControl.FeedDisciplined | nshlib/nsh_parse.c:1942-2053 | For every stream of commands, misplaced keywords and breaks included, both indices stay in range, slot 0 of each stack is idle, loop slots below the top are in their bodies, and neither "Shouldn't happen" branch is taken |
| NshControl.ItefTokenMoves | nshlib/nsh_parse.c:2087-2248 | An if keyword never touches the loop stack, keeps slot 0 idle, and never takes the internal-error branch |
| NshControl.ParseCommandDisciplined | nshlib/nsh_parse.c:2442-2549 | One whole command keeps the stack discipline and raises no internal error |
| NshControl.AcceptedExactly | nshlib/nsh_parse.c:1894-2248 | Which keyword is accepted in which state of the two stacks, as an if-and-only-if for each |
| NshControl.ErrorResets | nshlib/nsh_parse.c:2070-2248 | After a refused keyword the stack it belongs to is idle and enables commands; the other stack, the position in the script and `$?` are untouched |
| NshScript.MoreBudget | nshlib/nsh_script.c:145-188 | A run that ends is the same under every larger budget |
| NshScript.RunDisciplined | nshlib/nsh_script.c:145-188 | Whatever the script and however its run ends, the session keeps the stack discipline |
| NshScript.JumpsExactly | nshlib/nsh_parse.c:1999-2053 | A line requests a jump if and only if it is a `done` closing a loop that is to go on; the script is then read on from that loop's first line, otherwise from the next line |
| NshScript.IfLineStep | nshlib/nsh_parse.c:2102-2155 | An `if` line pushes one frame holding whether it is disabled, and the outcome of its condition, which is run only when enabled; `$?` becomes success |
| NshScript.LoopLineStep | nshlib/nsh_parse.c:1915-1982 | A `while` or `until` line pushes one slot with the if-index and the offset of its line, and whether the body is to run |
| NshParser.Parser.HasLoopEnabled | nshlib/nsh_parse.c:1817-1836 | Reads off whether the loop stack enables commands |
| NshParser.Parser.HasItefEnabled | nshlib/nsh_parse.c:1844-1869 | Reads off whether the if stack enables commands |
| NshParser.Parser.HasCmdEnabled | nshlib/nsh_parse.c:1875-1886 | Both stacks must enable a command |
| NshParser.Parser.StoreResult | nshlib/nsh_parse.c:438-495 | The exit status goes to the waiting loop, the waiting `if`, or `$?`, and nothing else changes |
| NshParser.Parser.HandleLoop | nshlib/nsh_parse.c:1894-2079 | The arrays after a loop keyword, its errors included, are those of the specification |
| NshParser.Parser.HandleWhile | nshlib/nsh_parse.c:1915-1982 | `while` and `until`: a slot pushed, or one of the errors and an empty loop stack |
| NshParser.Parser.HandleDone | nshlib/nsh_parse.c:2002-2053 | `done`: back to the top or on, slot popped, or an error |
| NshParser.Parser.ResetLoops | nshlib/nsh_parse.c:2070-2078 | After a loop error the loop stack is idle |
| NshParser.Parser.HandleItef | nshlib/nsh_parse.c:2087-2248 | The arrays after an if keyword, its errors included, are those of the specification |
| NshParser.Parser.HandleIf | nshlib/nsh_parse.c:2102-2155 | `if`, with or without `!`: a frame pushed, or one of the errors |
| NshParser.Parser.ResetItef | nshlib/nsh_parse.c:2241-2247 | After an if error the if stack is idle |
| NshParser.Parser.HandleBreak | nshlib/nsh_parse.c:3009-3035 | Outside a loop body nothing changes; inside, the slot is switched off and the if-index put back |
| NshParser.Parser.RunCommand | nshlib/nsh_parse.c:2442-2549 | One command: keywords stripped, skipped when disabled, run otherwise, and its status stored |
| NshParser.Parser.RunScript | nshlib/nsh_script.c:145-188 | The read, seek and parse loop over the arrays gives the result and the final state of the machine of `ScriptRefinement`, with `$?` as reported and the stack discipline kept |
| NshParser.Parser.SourceScript | nshlib/nsh_script.c:117-200 | Nothing changes when the script cannot be opened. Otherwise the session ends in the machine's final state with the parent's stream back; for a script in the fragment exactly the evaluator's commands run, both stacks are as before if it gets to its end, and only the ifs and loops around the failed command are open if it is given up |
| NshEscape.ParityIsQuoted | nshlib/nsh_parse.c:1258-1294 | A character is quoted for the forward automaton exactly when an odd number of backslashes stands before it |
| NshEscape.ParityTest | nshlib/nsh_parse.c:1273-1294 | The backward walk over backslashes finds out whether the forward automaton would call the character quoted |
| NshEscape.NextSpecial | nshlib/nsh_parse.c:1258-1294 | The search stops at the first special character that is not quoted, or at the end; that is the nearer of the two places where the forward search finds a back-quote and a dollar sign |
| NshEscape.StrChr | nshlib/nsh_parse.c:1001-1025 | The first occurrence that is not quoted, or none |
| NshEscape.SearchesAgree | nshlib/nsh_parse.c:1258-1294 | The backward search for both special characters finds the nearer of what the forward search finds for each |
| NshEscape.UnescapeKeeps | nshlib/nsh_parse.c:1154-1200 | Unescaping keeps exactly the characters that are not escaping backslashes, in order |
| NshEscape.UnescapeEscape | nshlib/nsh_parse.c:1154-1200 | Unescaping undoes backslash-escaping of any string, whatever set of characters is escaped along with the backslash |
| NshEscape.Dequote | nshlib/nsh_parse.c:1154-1200 | In place, the buffer becomes the unescaped string, terminated |
| NshEscape.DropChar | nshlib/nsh_parse.c:1168-1187 | One character is taken out and the rest of the string moved down |
| NshArgument.ScanIsRead | nshlib/nsh_parse.c:1661-1777 | Jumping over quoted and back-quoted parts gives what reading one character at a time with an inside/outside state gives |
| NshArgument.ReadInside | nshlib/nsh_parse.c:1719-1750 | Inside quotes everything up to the closing quote is kept as it is, with the quote itself for back-quotes; without one the word is refused |
| NshArgument.RemoveQuotes | nshlib/nsh_parse.c:1207-1233 | The two quotes are gone, the text between and behind them moved down unchanged, and the cursor is on the last quoted character |
| NshArgument.ScanInPlace | nshlib/nsh_parse.c:1661-1777 | The buffer holds the word that the character-by-character reading gives: just the quote characters deleted, back-quoted parts kept, terminated; and the saved cursor stands at the unchanged rest |
| NshArgument.NextInPlace | nshlib/nsh_parse.c:1590-1648 | Skips separators, then finds nothing, a bar, a comment, an unmatched quote or the next word, text before the cursor untouched |
| NshQuote.WordsReadBack | nshlib/nsh_parse.c:1590-1777 | A line of words written from bare and quoted pieces is taken apart, argument by argument, into the words without their quotes, in order; what stands in back-quotes keeps them |
| NshQuote.BarAndComment | nshlib/nsh_parse.c:1590-1648 | Leading separators make no difference, a bar is a pipe with the rest behind it, a `#` a comment, and nothing is no argument |
| NshLine.SplitIsCut | nshlib/nsh_parse.c:2889-2996 | On every line the pieces are those of a character-by-character reading: cut at semicolons outside matched quotes, ending at the first unquoted newline or `#`, a quote behind a backslash opening nothing |
| NshLine.AllFine | nshlib/nsh_parse.c:2889-2996 | When every command succeeds without a jump, all pieces are handed over in order and the line is as good as its quotes are matched |
| NshLine.HandedExactly | nshlib/nsh_parse.c:2930-2996 | The pieces are handed over in order up to and including the first whose command is not fine; a failure there fails the line and a jump does not, and otherwise the line is as good as its quotes |
| NshLine.ParseLine | nshlib/nsh_parse.c:2871-2996 | For every line and every outcome of its commands, the strings handed over in place are the pieces of the character-by-character reading up to the first failure or jump, all of them if there is none, and the status of the line is the right one; the scan ends |
| NshLine.FindDelimiter | nshlib/nsh_parse.c:2889-2900 | The next delimiter of the line |
| NshLine.FindUnquoted | nshlib/nsh_parse.c:1001-1025 | The closing quote that is not quoted, or the end |
| NshLine.CutOff | nshlib/nsh_parse.c:2930-2938 | The piece before a semicolon, which becomes its terminator; the rest of the line is untouched |
| NshVars.RunsRefineMap | nshlib/nsh_vars.c:227-352 | Any run of set and unset with names without an equal sign, failed allocations included, keeps the records distinct and well formed and is the run on a map |
| NshVars.SetRecsGood | nshlib/nsh_vars.c:227-290 | For such a name setting is map update, or removal of the name when the allocation fails |
| NshVars.RoundTripExactly | nshlib/nsh_vars.c:196-290 | For every list of records, name and value: reading a variable back gives the value it was set to if and only if, where another record that the name finds stays, that record has the value, and otherwise the name has no equal sign |
| NshVars.RoundTripDistinct | nshlib/nsh_vars.c:196-290 | On a block with distinct names that is if and only if the name has no equal sign |
| NshVars.TwoOfOneName | nshlib/nsh_vars.c:196-290 | After `set a x; set a=b c`, `a` reads back wrong when it is set; after `set a b=c` as well, `a=b` set to `b=c` reads back right |
| NshVars.StaysDistinctExactly | nshlib/nsh_vars.c:227-290 | Setting keeps the names distinct if and only if no record that stays is named like the name up to its first equal sign; for a name without one that is always so |
| NshVars.EqualSignInName | nshlib/nsh_vars.c:196-290 | `a` set, then `a=b`: two records named `a`, and `a=b` reads back wrong |
| NshVars.FindsOwnName | nshlib/nsh_vars.c:48-64 | A name without an equal sign finds the records of that name only |
| NshVars.WithoutIsRemoval | nshlib/nsh_vars.c:128-167 | Dropping a record is map removal |
| NshVars.ComparisonStops | nshlib/nsh_vars.c:48-64 | Whatever stands behind the two terminators in memory, the comparison stops at or before that of the record if and only if the name is not the whole text of the record, and then its answer is whether the name finds the record |
| NshVars.SoughtExactly | nshlib/nsh_vars.c:90-110 | `Sought` holds if and only if every comparison of a search, up to the record found or the end of the block, stops at or before its record's terminator |
| NshVars.SearchOverruns | nshlib/nsh_vars.c:48-64 | `a=b` set to `c`, then `a=b=c` looked up: the comparison runs past both terminators |
| NshVars.GoodNameSought | nshlib/nsh_vars.c:90-110 | The search for a name without an equal sign never does |
| NshVars.EntriesAreBindings | nshlib/nsh_vars.c:374-406 | The visited strings are one for each binding |
| NshVars.VarStore.CompareName | nshlib/nsh_vars.c:48-64 | True exactly when the record begins with the name and an equal sign; reports running past the terminators exactly when the name is the record's whole text |
| NshVars.VarStore.FindVar | nshlib/nsh_vars.c:90-110 | The offset of the first record that the name finds, or none; reports running past the terminators exactly when some comparison of the search does |
| NshVars.VarStore.RemoveVar | nshlib/nsh_vars.c:128-167 | The block loses that record and keeps the others in order |
| NshVars.VarStore.GetVar | nshlib/nsh_vars.c:196-220 | What stands behind the first equal sign of the record found; for a name without one on a block with distinct names, the value in the map, or none; running past the terminators is reported |
| NshVars.VarStore.SetVar | nshlib/nsh_vars.c:227-290 | The block stays packed: the record found goes and, unless the allocator refuses, the new one is last; for a name without an equal sign on a block with distinct names that is map update or removal; running past the terminators is reported |
| NshVars.VarStore.UnsetVar | nshlib/nsh_vars.c:298-352 | The record found goes in every case; the call fails exactly when a block still in use cannot be shrunk; for a name without an equal sign on a block with distinct names that is map removal; running past the terminators is reported |
| NshVars.VarStore.ForEach | nshlib/nsh_vars.c:374-406 | The records in order, each once, up to the first non-zero answer, which is returned |
| NshEnv.ActApartExactly | nshlib/nsh_envcmds.c:504-663 | From stores with no name in common, a set, unset or export, with any failures and any name, leaves no name in both if and only if: the name set is in the environment, or the allocation fails, or its part before the first equal sign is not in the environment; unset always; the export is refused, or no record that stays has the name |
| NshEnv.ExportUnsafeExactly | nshlib/nsh_envcmds.c:610-663 | A record that stays has the exported name if and only if two records have it |
| NshEnv.RunApartExactly | nshlib/nsh_envcmds.c:504-663 | Over any run no name is ever in both stores if and only if each command meets its condition when it is given |
| NshEnv.SetSetExport | nshlib/nsh_envcmds.c:504-663 | `set a x; set a=b c; export a`: both sets meet the condition, the export does not, `a` is in both stores, and `$a` is `b=c` or `x` by search order |
| NshEnv.GoodRuns | nshlib/nsh_envcmds.c:504-663 | Any run of commands whose names have no equal sign, with any failures, is the run on two maps, keeps the records' names distinct, and no name is ever in both stores |
| NshEnv.GoodAct | nshlib/nsh_envcmds.c:504-663 | One such command is its effect on two maps and meets its condition |
| NshEnv.SearchOrderExactly | nshlib/nsh_parse.c:1095-1146 | The search order changes `$name` if and only if both stores hold the name, with different values |
| NshEnv.SearchOrderIrrelevant | nshlib/nsh_parse.c:1095-1146 | After any run in which each command meets its condition, `$name` is the same for every name whichever store is searched first |
| NshEnv.GoodSearchOrder | nshlib/nsh_parse.c:1095-1146 | So it is after any run of commands whose names have no equal sign |
| NshEnv.ExportThenSet | nshlib/nsh_envcmds.c:504-663 | A name just exported expands to its value, a later set changes the exported value, and no other name's expansion changes |
| NshEnv.ExpandsAfter | nshlib/nsh_envcmds.c:504-663 | What `$name` is after each set, unset and export of a name without an equal sign, failures included, and that no other name's expansion changes |
| NshEnv.Session.Set | nshlib/nsh_envcmds.c:504-558 | For every name: an exported one is changed in the environment, any other in the variable block, as `Act` says |
| NshEnv.Session.Unset | nshlib/nsh_envcmds.c:569-602 | For every name: the record found goes from the variables, and the name from the environment if that does not fail |
| NshEnv.Session.Export | nshlib/nsh_envcmds.c:610-663 | For every name: the value given, or the variable's, or empty moves to the environment and the record found goes; nothing changes when the environment refuses |
| NshEnv.Session.ExpandName | nshlib/nsh_parse.c:1095-1146 | For every name: `$?`, `$!`, what the record found holds, an environment variable, or empty |
| NshAlias.ApplyKeeps | nshlib/nsh_parse.c:388-431 | Every operation keeps the protocol: each entry on exactly one of the two lists, live names distinct, `rem` only with `exp`, and `exp` set exactly for the entries that one active expansion list holds once |
| NshAlias.CapacityNeverFails | nshlib/nsh_parse.c:388-402 | Whenever an alias can be expanded the expansion list has room for it |
| NshAlias.OutermostClean | nshlib/nsh_parse.c:409-431 | Once no command is active no entry is marked or flagged |
| NshAlias.RemovedIsFreed | nshlib/nsh_parse.c:409-431 | A flagged alias is free as soon as the command holding it ends, whatever runs in between |
| NshAlias.UnaliasDuringExpansion | nshlib/nsh_alias.c:122-152 | Removing an alias while an active command expands it frees it when that command ends |
| NshAlias.ReleaseAllOwned | nshlib/nsh_parse.c:409-431 | Ending a command unmarks exactly its entries, frees the flagged ones and leaves the rest as they were |
| NshAlias.SaveOwned | nshlib/nsh_alias.c:158-194 | Saving keeps ownership, also when one or both string allocations fail |
| NshAlias.FailedFreshSave | nshlib/nsh_alias.c:158-194 | A new alias that cannot be stored leaves the table exactly as it was |
| NshAlias.DeleteAllOwned | nshlib/nsh_alias.c:214-227 | Removing all aliases keeps ownership: marked ones are only flagged |
| NshAlias.InitOwned | nshlib/nsh_alias.c:76-96 | The fresh table satisfies the ownership invariant with nothing marked |
| NshAliasBook.ApplyIsNote | nshlib/nsh_alias.c:76-293 | Read as a map from live names to value, expanding command and doom, every operation on the table, its lists, marks and flags is the operation on the map: defining, with each allocation failing or not and the table full or not; removing one or all; expanding; and the end of a command |
| NshAliasBook.RunsAreNotes | nshlib/nsh_parse.c:388-431 | Any run of operations on the table is the run on the map |
| NshAliasBook.UnaliasRemoves | nshlib/nsh_alias.c:393-438 | Removing an alias that no command is expanding makes its name unknown; one being expanded stays for the time being; all other names stand for what they did |
| NshAliasBook.AliasDefines | nshlib/nsh_alias.c:158-194 | After a successful definition the name stands for the value, after a failed one for nothing; all other names stand for what they did |
| NshAliasBook.RoomExactly | nshlib/nsh_alias.c:158-194 | There is room for a new alias if and only if there are fewer names than table entries |
| NshAliasBook.ExpandableExactly | nshlib/nsh_alias.c:248-270 | A word is expanded if and only if the map has it, with a value, and no active command is expanding it; the value is the map's |
| NshAliasBook.InitIsEmpty | nshlib/nsh_alias.c:76-96 | The fresh table is the empty map |
| NshAliasTable.AliasTable.constructor | nshlib/nsh_alias.c:76-96 | All entries are free and no command is active |
| NshAliasTable.AliasTable.Find | nshlib/nsh_alias.c:102-116 | The live alias of that name, or none |
| NshAliasTable.AliasTable.DeleteEntry | nshlib/nsh_alias.c:122-152 | A marked entry is flagged, any other moves to the free list |
| NshAliasTable.AliasTable.SaveAlias | nshlib/nsh_alias.c:158-194 | The table after saving, with every failure undone; on the map, definition exactly when it is possible |
| NshAliasTable.AliasTable.RemoveAllAliases | nshlib/nsh_alias.c:214-227 | Every live alias is deleted or flagged while the list is walked; only names being expanded are left |
| NshAliasTable.AliasTable.RemoveAlias | nshlib/nsh_alias.c:393-438 | The alias of that name is removed from the map, or marked to go if it is being expanded; reports whether there was one |
| NshAliasTable.AliasTable.BeginCommand | nshlib/nsh_parse.c:2482-2485 | A command begins with an empty expansion list of its own |
| NshAliasTable.AliasTable.ExpandAlias | nshlib/nsh_parse.c:1033-1087 | Gives the map's value exactly when the name is there and not being expanded; it is then marked and joins the innermost list |
| NshAliasTable.AliasTable.EndCommand | nshlib/nsh_parse.c:409-431 | The innermost list is released entry by entry; on the map, what the command was expanding is let go of or goes |
| MmlTuplet.TupletAgrees | audioutils/mml_parser/mml_parser.c:526-637 | After a successful `{`, unless a malformed token is reported, `}` is reached with no too-few or too-many result, exactly the counted notes, rests and chords are reported, their lengths sum to what a note would get from the length written behind that `}`, and the last call reads over that length |
| MmlTotal.TupletTotal | audioutils/mml_parser/mml_parser.c:526-558 | For a tuplet followed by a chain of lengths, errors, dots and a plus too many included, the notes get in all what the chain is worth: the sum of its terms if all are worth something |
| MmlTotal.TupletDefault | audioutils/mml_parser/mml_parser.c:526-558 | Without a length behind the `}` they get the default length |
| MmlTotal.CursorExactly | audioutils/mml_parser/mml_parser.c:242-352 | Two parser states read a length to different places if and only if it begins with at most four dots, a plus and a digit, and exactly one of their default lengths is a note value |
| MmlTotal.TupletReadsOver | audioutils/mml_parser/mml_parser.c:594-612 | So the `}` stops where the reading ahead did unless the tuplet changed the default length in that way |
| MmlTotal.TornLength | audioutils/mml_parser/mml_parser.c:594-612 | `.+8` read with the default length 4 and with 3: an input where it stops early |
| MmlTuplet.CallsConserve | audioutils/mml_parser/mml_parser.c:358-372 | From any point inside a tuplet the rest of the notes get exactly the rest of the time |
| MmlTuplet.TupletCall | audioutils/mml_parser/mml_parser.c:618-732 | One call inside a tuplet uses up one counted note and one share, or none of either |
| MmlTuplet.ChordStopsAtFirst | audioutils/mml_parser/mml_parser.c:667-732 | A chord ends at the first `]`, as the look-ahead assumes |
| MmlScore.OverrunExactly | audioutils/mml_parser/mml_parser.c:667-732 | A call leaves the cursor behind the terminator if and only if the next token opens a chord whose rest of the score is well formed and never closed |
| MmlScore.ParseProgress | audioutils/mml_parser/mml_parser.c:781-852 | If every `[` has a later `]`, each call stays at or before the terminator and moves on unless it reports the end, and the end is reported only at the terminator; `MmlFault.Faults` says which calls are defined |
| MmlScore.CallsToEof | audioutils/mml_parser/mml_parser.c:781-852 | The end of such a score is reported within length plus one calls; `MmlFault.NeverFaults` says on which scores all of them are defined |
| MmlScore.CalcSamplesExact | audioutils/mml_parser/mml_parser.c:162-202 | With up to four dots the result is the floor of the exact duration with multiplier 32 - 2^(4-k); more dots or another note value are refused |
| MmlCalls.ReadsBack | audioutils/mml_parser/mml_parser.c:145-156 | A number written in decimal reads back as itself |
| MmlCalls.NoteIndexIs | audioutils/mml_parser/mml_parser.c:96-110 | The index of a code is its first place in the scale, or -1 |
| MmlCalls.HalfScaleShifts | audioutils/mml_parser/mml_parser.c:116-139 | All accidentals at the cursor are read and count as sharps less flats |
| MmlCalls.NoteCall | audioutils/mml_parser/mml_parser.c:378-386 | A note's pitch is its place in the scale, plus its accidentals, plus twelve for each octave; outside a tuplet its length is the one written behind them |
| MmlCalls.RestCall | audioutils/mml_parser/mml_parser.c:392-406 | A rest has the length written behind it |
| MmlCalls.SettingCall | audioutils/mml_parser/mml_parser.c:412-486 | Tempo, default length, octave, volume and tone take the number written behind them and change nothing else; a volume is accepted up to 100 |
| MmlCalls.SettingRefused | audioutils/mml_parser/mml_parser.c:412-486 | Without a number they are refused and change nothing |
| MmlCalls.SignedVolume | audioutils/mml_parser/mml_parser.c:492-506 | A sign before a volume counts but is not stepped over; a negative volume is refused |
| MmlCalls.OctaveCall | audioutils/mml_parser/mml_parser.c:454-486 | After `>` or `<` every note is twelve semitones higher or lower |
| MmlCalls.StartRefused | audioutils/mml_parser/mml_parser.c:564-588 | `{` inside a tuplet, or with no `}` behind it, is refused |
| MmlCalls.OtherCall | audioutils/mml_parser/mml_parser.c:781-852 | A character that begins no token is refused, passed over and changes nothing |
| MmlCalls.ChordRefused | audioutils/mml_parser/mml_parser.c:667-715 | In a chord, what is neither a note nor an octave change is refused |
| MmlPrint.ChordReads | audioutils/mml_parser/mml_parser.c:667-732 | A written chord of notes and octave changes is read to its bracket, its notes kept in order up to the fifth, each in the octave then valid |
| MmlPrint.TokenReads | audioutils/mml_parser/mml_parser.c:781-852 | A written note, rest, chord or setting is reported with its pitches and its length or value, changes the parser as it should, and is read to its end |
| MmlPrint.ScoreReads | audioutils/mml_parser/mml_parser.c:781-852 | A whole written score of these is read back call by call, and then its end is reported |
| MmlChain.ChainLength | audioutils/mml_parser/mml_parser.c:242-352 | For every chain of numbers and dots, with or without an error or a plus too many: which length is returned and how far the cursor goes, a term counting all dots up to its own |
| MmlChain.NoError | audioutils/mml_parser/mml_parser.c:208-222 | Without an error the whole chain is read and is worth the sum of the terms behind the last one worth nothing |
| MmlChain.FirstError | audioutils/mml_parser/mml_parser.c:296-310 | The first term that is an error is the answer and nothing behind it is looked at |
| MmlChain.PlainChain | audioutils/mml_parser/mml_parser.c:242-352 | A chain of terms that are all worth something is read whole and is worth their sum |
| MmlChain.UndottedWorths | audioutils/mml_parser/mml_parser.c:285-310 | Without dots before the last term, each term is worth what it is worth alone |
| MmlChain.ErrorExactly | audioutils/mml_parser/mml_parser.c:162-202 | For a positive rate and tempo a term is an error if and only if its number is no note value or more than four dots have come up |
| MmlFault.ZeroTempo | audioutils/mml_parser/mml_parser.c:412-428 | `T0C`: the first call sets the tempo to zero, the second divides by it |
| MmlFault.SafeCall | audioutils/mml_parser/mml_parser.c:781-852 | With no divisor zero, on a score in which no `T` reads zero, a call does not divide by zero and leaves no divisor zero |
| MmlFault.NeverFaults | audioutils/mml_parser/mml_parser.c:781-852 | From a tempo other than zero, on such a score, no call of the whole run divides by zero |
| MmlFault.SafeScore | audioutils/mml_parser/mml_parser.c:761-852 | A new parser reads such a score with its chords closed to the end without a division by zero in at most length plus one calls |
| MmlParser.ComputeSamples | audioutils/mml_parser/mml_parser.c:162-202 | The loop over dots computes the duration; a division by zero is reported, exactly when the number and the dots are accepted and the tempo is zero |
| MmlParser.SkipSpaces | audioutils/mml_parser/mml_parser.c:69-77 | The first character from the cursor on that is not white space |
| MmlParser.NextCode | audioutils/mml_parser/mml_parser.c:83-90 | The next code and the cursor behind it, one past the terminator at the end |
| MmlParser.ReadHalfScale | audioutils/mml_parser/mml_parser.c:116-139 | All sharps and flats at the cursor, added up |
| MmlParser.CountDigits | audioutils/mml_parser/mml_parser.c:145-156 | The length of the number at the cursor |
| MmlParser.SkipTo | audioutils/mml_parser/mml_parser.c:512-520 | The first such character, or the terminator |
| MmlParser.Parser.constructor | audioutils/mml_parser/mml_parser.c:761-775 | The settings given, and no tuplet |
| MmlParser.Parser.Samples | audioutils/mml_parser/mml_parser.c:208-222 | The duration of one term, added to the sum before it when there was a plus; a division by zero is recorded |
| MmlParser.Parser.ReadLength | audioutils/mml_parser/mml_parser.c:242-352 | Reads the same length and stops at the same place as the recursive reading, and divides by zero exactly when the tempo is zero and the default length, or the number at the cursor with its dots, is a note value |
| MmlParser.Parser.ReadTerms | audioutils/mml_parser/mml_parser.c:285-338 | The state loop from the first number or dot on |
| MmlParser.Parser.NextTupletShare | audioutils/mml_parser/mml_parser.c:358-372 | Equal shares, the last note taking what is left |
| MmlParser.Parser.LookAhead | audioutils/mml_parser/mml_parser.c:526-558 | Counts the notes up to the closing brace, or reports that there is none |
| MmlParser.Parser.ReadChord | audioutils/mml_parser/mml_parser.c:667-732 | Notes, octaves and errors of a chord and where the cursor ends up |
| MmlParser.Parser.ReadStart | audioutils/mml_parser/mml_parser.c:564-588 | The opening brace: look-ahead, total length and mode, or the error and no tuplet |
| MmlParser.Parser.ReadStop | audioutils/mml_parser/mml_parser.c:594-612 | The closing brace: done, or too few notes, or no tuplet |
| MmlParser.Parser.ReadNotes | audioutils/mml_parser/mml_parser.c:618-661 | A note or rest inside or outside a tuplet |
| MmlParser.Parser.ReadRest | audioutils/mml_parser/mml_parser.c:392-406 | A rest and its length, inside or outside a tuplet |
| MmlParser.Parser.ReadChordCode | audioutils/mml_parser/mml_parser.c:675-715 | One code of a chord: a note, dropped beyond the fifth, or an octave change |
| MmlParser.Parser.ReadSetting | audioutils/mml_parser/mml_parser.c:412-448 | Tempo, default length, volume or tone, and their errors |
| MmlParser.Parser.ReadOctave | audioutils/mml_parser/mml_parser.c:454-486 | Octave up, down or set, and its errors |
| MmlParser.Parser.ParseMml | audioutils/mml_parser/mml_parser.c:781-852 | The dispatch on the next code, in place, is the parse function of the theorems, and a division by zero is recorded exactly when `MmlFault.Faults` holds |
| FmSound.Sound.Modulate | audioutils/fmsynth/fmsynth.c:76-96 | One sample of an acyclic, unshared tree in the heap is one simultaneous step: every operator is updated and operated once, every feedback value comes from the sample before |
| FmSound.Sound.Render | audioutils/fmsynth/fmsynth.c:76-96 | Any number of samples is the iterated recurrence, outputs and final states |
| FmOperator.FetchThenOperate | audioutils/fmsynth/fmsynth.c:50-96 | Fetching all feedback first and then operating is the simultaneous step |
| FmRecurrence.StepExactly | audioutils/fmsynth/fmsynth.c:50-96 | New states are those of a sample if and only if operators outside the tree have not moved and each in it stands in the recurrence: feedback from the referenced operator's old output, output as envelope level times wave over the maximum level at old phase plus feedback plus the new outputs below, phase brought into one turn |
| FmRecurrence.FeedbackFromReference | audioutils/fmsynth/fmsynth_op.c:440-456 | The feedback used in a sample depends on the referenced operator's output in the sample before and the rate, and on nothing else; at full rate it is that output |
| FmRecurrence.OutputIsSum | audioutils/fmsynth/fmsynth.c:76-96 | A sample is the sum of the outputs side by side, times the volume over the maximum volume, rounded towards zero |
| FmRecurrence.RunRecurrence | audioutils/fmsynth/fmsynth.c:76-96 | Over any run each sample stands in the recurrence with the one before, and what is heard is the scaled sum |
| FmRecurrence.TimeGoesRound | audioutils/fmsynth/fmsynth.c:63-70 | The phase time at sample k is the first one plus k, modulo its maximum |
| FmOperator.Operate | audioutils/fmsynth/fmsynth_op.c:521-548 | The operator and all below it move once; the output is envelope times wave at phase plus feedback plus sub-operators |
| FmOperator.OperateAll | audioutils/fmsynth/fmsynth_op.c:535-542 | The outputs of neighbouring operators add up, each operated once |
| FmOperator.FetchFeedback | audioutils/fmsynth/fmsynth.c:50-57 | The same for every operator beside and below, all from outputs not yet overwritten |
| FmOperator.AppendSubShape | audioutils/fmsynth/fmsynth_op.c:380-395 | A tree linked at the end of the cascade chain gives one tree of all the operators |
| FmOperator.AppendNextShape | audioutils/fmsynth/fmsynth_op.c:401-416 | A tree linked at the end of the parallel chain gives one tree of all the operators |
| FmOperator.LinkedBehind | audioutils/fmsynth/fmsynth_op.c:380-416 | A linked tree comes behind all operators that were there, in its own order |
| FmOperator.UpdateFeedback | audioutils/fmsynth/fmsynth_op.c:440-456 | Each operator with a reference takes the last output of the operator it refers to, times the rate over the maximum level, rounded towards zero; one without keeps its value |
| FmOperator.CascadeSubop | audioutils/fmsynth/fmsynth_op.c:380-395 | Linking below keeps a tree in which no operator is shared, all other links unchanged |
| FmOperator.ParallelSubop | audioutils/fmsynth/fmsynth_op.c:401-416 | Linking beside keeps a tree in which no operator is shared, all other links unchanged |
| FmSound.SignalBounded | audioutils/fmsynth/fmsynth_op.c:544-547 | With an accepted envelope an operator leaves the range -32767..32767 if and only if its wave is the sawtooth, its angle is in the last two steps of a turn, and its envelope is at full level up or down; then it is 32768 or its negative |
| FmSound.RunInRange | audioutils/fmsynth/fmsynth_op.c:544-547 | Over any number of samples, in trees of any wave forms, every operator stays within 32767, or 32768 for a sawtooth |
| FmWave.SinOdd | audioutils/fmsynth/fmsynth_op.c:125-153 | sin(-t) = -sin(t) for every integer t |
| FmWave.SinReflected | audioutils/fmsynth/fmsynth_op.c:125-153 | sin(PI - t) = sin(t) for 0 <= t <= PI, rounding included |
| FmWave.SinBounded | audioutils/fmsynth/fmsynth_op.c:41-153 | Table indices stay in range and the result lies within 32767 |
| FmWave.SinIsHalfSin | audioutils/fmsynth/fmsynth_op.c:125-153 | The whole wave is the half wave and its negative |
| FmWave.WavesBounded | audioutils/fmsynth/fmsynth_op.c:159-215 | All waves stay within 32767, except that the sawtooth is 32768 if and only if the angle is in the last two steps of a turn |
| FmWave.SawtoothTooHigh | audioutils/fmsynth/fmsynth_op.c:201-205 | The smallest angle at which the sawtooth exceeds the range |
| FmShape.TableTurns | audioutils/fmsynth/fmsynth_op.c:41-113 | From entry to entry the sine table turns by a 1024th of a turn, by the addition theorem right to less than one unit, strictly rising from zero to the maximum |
| FmShape.SinInterpolates | audioutils/fmsynth/fmsynth_op.c:125-153 | Between two entries the sine is their linear interpolation, rounded down |
| FmShape.SinSign | audioutils/fmsynth/fmsynth_op.c:125-153 | The sine is positive exactly inside the first half turn and zero exactly at its ends |
| FmShape.SinPeriodic | audioutils/fmsynth/fmsynth_op.c:34-153 | Whole turns make no difference to the sine, for negative angles too |
| FmShape.WaveLines | audioutils/fmsynth/fmsynth_op.c:159-215 | The triangle is a zigzag scaled to the maximum and the sawtooth a line of slope one half, both rounded down; the square is the maximum or its negative, with the sign of the sine |
| FmShape.PeriodicExactly | audioutils/fmsynth/fmsynth_op.c:34-35 | For which waves and angles a whole turn more makes no difference, as an if-and-only-if |
| FmShape.Adjusts | audioutils/fmsynth/fmsynth_op.c:34-35 | An angle stands for itself less whole turns, a negative one for its mirror image about the quarter turn |
| FmEnvelope.AcceptedIsTuned | audioutils/fmsynth/fmsynth_eg.c:120-149 | After an accepted setting levels are in range and each segment ends where the next begins |
| FmEnvelope.SettingMeans | audioutils/fmsynth/fmsynth_eg.c:46-149 | Each stored segment goes from one level of the course release, attack, decay break, decay, sustain, release to the next, scaled to the maximum and without fraction, in the time given with the latter |
| FmEnvelope.OutputOnSegment | audioutils/fmsynth/fmsynth_eg.c:175-209 | In every state an output lies between the two levels of its segment, and so within the maximum |
| FmEnvelope.OutputFollowsLine | audioutils/fmsynth/fmsynth_eg.c:175-209 | Within a segment an output is the exact point of the straight line at that sample, rounded towards the segment's first level |
| FmEnvelope.EnvelopeCurve | audioutils/fmsynth/fmsynth_eg.c:155-209 | After a start, whatever went before, each sample is on the line of the segment its number falls into, and the sample that ends a segment is the first level of the next one with a period |
| FmEnvelope.CurveSteps | audioutils/fmsynth/fmsynth_eg.c:175-209 | Within a segment the outputs go in one direction, by the floor or the ceiling of the slope each sample |
| FmEnvelope.EverySamplePlaced | audioutils/fmsynth/fmsynth_eg.c:175-209 | Every sample up to the release falls into one segment |
| FmEnvelope.ReleasedLevel | audioutils/fmsynth/fmsynth_eg.c:155-209 | From the release on, and after a stop, the output is the release level |
| FmEnvelope.NewStaysFull | audioutils/fmsynth/fmsynth_eg.c:73-91 | A new generator puts out the maximum level until it is set or started |
| FmEnvelope.OutputsBounded | audioutils/fmsynth/fmsynth_eg.c:155-209 | Every output of every run of start, stop and operate is within the maximum |
| FmEnvelope.ReleaseTime | audioutils/fmsynth/fmsynth_eg.c:155-209 | From start, the generator is released after exactly the attack period plus one, plus period plus one for each later state with a period, and not before |
| FmEnvelope.ReleasedAfter | audioutils/fmsynth/fmsynth_eg.c:175-209 | From any state, released after exactly the remaining samples |
| FmEnvelope.EverySampleCounts | audioutils/fmsynth/fmsynth_eg.c:175-209 | Every sample brings the release exactly one sample nearer |
| FmEnvelope.Generator.SetLevels | audioutils/fmsynth/fmsynth_eg.c:120-149 | All segments are stored, even when one is refused; acceptance means that none was |
| FmEnvelope.Generator.constructor | audioutils/fmsynth/fmsynth_eg.c:73-91 | A new generator is released at full level |
| FmEnvelope.Generator.StoreParam | audioutils/fmsynth/fmsynth_eg.c:46-63 | One segment is stored; it is refused when its level or period is out of range |
| FmEnvelope.Generator.Begin | audioutils/fmsynth/fmsynth_eg.c:155-159 | Back to the start of the attack |
| FmEnvelope.Generator.Halt | audioutils/fmsynth/fmsynth_eg.c:165-169 | Released at once |
| FmEnvelope.Generator.Sample | audioutils/fmsynth/fmsynth_eg.c:175-209 | One sample: the search loop for the next state, and within a segment the point of its line |
| RleRow.EncodeRow | tools/bitmap_converter.py:60-80 | Decoding gives the quantised row back, every run is in 1..255, and no run list with that cap for the row is shorter |
| RleRow.Quantize | tools/bitmap_converter.py:48-57 | The first of the nearest palette colours, an exact match if there is one |
| RleRow.Euclidean | tools/bitmap_converter.py:53-55 | Nearness is the squared Euclidean distance over the three channels |
| RleRow.GreedyIsShortest | tools/bitmap_converter.py:60-80 | Taking the longest run each time needs no more runs than any other capped run list |
| RleRow.GreedyDecodes | tools/bitmap_converter.py:60-80 | Taking the longest run each time loses nothing and keeps the cap |

## Left out

- NshExactness.ExactFragment: does not speak of scripts in which a loop inside a loop has a `break` under an `if`, nor, with the ignore-errors flag set, of those in which any loop has one, because there the fragment is not necessary (`NshRepair.OutsideYetAgrees`, `NshIgnore.IgnoringYetAgrees`); on those scripts there are the sufficient conditions of `ScriptRefinement` and `WiderRefinement`.
- NshExactness.OutsideDisagrees: the same scripts are left out.
- FmSound.Sound.Render: one sound and one channel; summing several sounds, the cast to `int16_t` and copying to channels are not modelled.
- FmOperator.Operate: the envelope is held by value inside the operator, so two operators sharing one envelope object are not modelled; phases are reals, without float rounding.
- MmlScore.ParseProgress: where a call divides by zero the model goes on with zero; `MmlFault` says exactly when that is.
- MmlParser.ComputeSamples: the result after a division by zero is zero in the model and undefined in C; `fault` says so.
- NshArgument.ScanInPlace: lines with backslashes are excluded; the word is the one scanned, before `$` and back-quotes are expanded.
- NshArgument.NextInPlace: the same, and aliases are not expanded.
- MmlPrint.ScoreReads: tuplets are not among the written tokens; `TupletAgrees` and `TupletTotal` cover them.
- NshQuote.WordsReadBack: words with backslashes are not written.
- NshVars.RunsRefineMap: names with an equal sign are excluded, because a map update is not what they do; what they do to the records is stated by `SetVar`, `UnsetVar`, `RoundTripExactly` and `StaysDistinctExactly`.
- NshVars.VarStore.CompareName: what the source answers after running past both terminators depends on the memory behind them; the model answers that the names differ, here and in the methods that search.
- NshEnv.SearchOrderExactly: the environment is a map whose names have no equal sign; an environment that stores such names is not covered by the results on search order.
- NshAliasTable.AliasTable.ExpandAlias: that a value of several words is spliced into the command line is not modelled.
- NshParser.Parser.RunScript: script offsets are counted in lines with one command a line, so several keywords on a line, quoted loop lines and nested `source` are not modelled; seeking and reading do not fail.
- NshParser.Parser.HandleDone: the seek does not fail.
- NshParser.Parser.RunCommand: `nice`, background commands and redirection are left to the one answer a command gives.
- Overflow of C integers is not modelled.
- Running commands (`nsh_execute`), pipelines, redirection, background commands and `nice` are one arbitrary answer per command.
- Back-quote execution, file concatenation and splitting `$` expansions into several arguments.
- The flag options of `set`, printing aliases and variables, and the trimming of values.
- Output of error messages.
- Operator start, stop and frequency setting, and creation and deletion of synthesiser objects.
- Writing the palette and the image around the row encoder.
- All other commands and applications: file, network, process, time, login, USB console, audio player, Modbus and benchmarks.
