# Natural Python — a Dafny model of the instruction-execution core

Natural Python is an interactive console. The user types an instruction as comment-like
lines, optionally followed by `finally:` and a constraint written in Python. An empty line
ends the block. The tool then builds a prompt from the code accepted so far plus the
commented instruction, and asks a completion provider for several candidate snippets.
It runs each candidate after the accepted code, with the constraint appended. The first
candidate whose run exits with status zero is accepted: the instruction, as comments,
and the accepted code are appended to the session's code.

This project models that core in Dafny:

- `text.dfy` (module `Text`): Python's `"\n".join`, `str.split('\n')` and `str.strip()`,
  with the round trips between join and split.
- `language_model_api.dfy` (module `LanguageModelApi`): turning the provider's choice
  texts into candidates. Each text is split into lines, and empty lines and the stop
  line `#` are dropped.
- `interpreter.dfy` (module `Interpreter`): `NaturalProgram`, the prompt builder
  `GetPrompt`, output diffing `GetNewCodeOutput` and the first-success search
  `ExecuteNaturalProgram`. The search loop `TryCompletions` is a `for` loop with an early
  return, proved equal to the reference function `FirstSuccess`. It runs the trials on a
  `PythonShell` object, whose log shows that no trial after the accepted one runs.
- `console.dfy` (module `Console`): the REPL of `natural_python/console.py`. It is a
  `while` loop over local state (`Repl`) proved equal to `Drive`, a recursive reference
  function built from the step functions `Restart`, `ExecuteBlock` and `ReadLine`.
- `legacy_console.dfy` (module `LegacyConsole`): the older REPL of
  `natural_python/__main__.py`. It has no `python` raw-code mode, and a malformed line
  changes nothing. One lemma states exactly where the two consoles differ.
- `wrappers.dfy` (module `Wrappers`): `Option`.

Collaborators are parameters, bundled in `Interpreter.Env`:
- `run(source)` stands for `get_code_output`. It gives the captured stdout, or `None`
  when the Python process exits with a non-zero status.
- `sample(prompt, n)` stands for the provider call. It gives the choice texts, in order.
- `completionN` is the requested sample count.

The engine identifier, API key and base, token limit, temperature and interpreter command
only reach these two collaborators, so they are folded into them. User input is a
sequence of lines, and the end of the sequence is end-of-file.

Some behaviour of the source worth knowing when reading the model:
- `python` is accepted whenever both buffers are empty, in any reading state
  (`console.py:165-168`). That includes reading a constraint that has no lines yet, and
  raw-code mode itself.
- A trial runs the code so far, then the candidate, then the constraint. The reported
  output is the diff against the run that includes the constraint
  (`interpreter.py:128-137`).
- In `console.py` a parse error leads to a restart (`console.py:189-191`), and the next
  iteration clears both buffers (`console.py:98-101`).
- The interpreter is the class `Interpreter.PythonShell`. Its ghost `log` records every
  source text run, in order, so the contracts can state which runs a search performed.

## Model

| member | source | states |
|---|---|---|
| Text.Join | natural_python/interpreter.py:50-54 | `"\n".join`: the empty list joins to the empty text, and otherwise the length is the lines' total length plus one per separator |
| Text.JoinEnds | natural_python/interpreter.py:50-54 | a joined text starts with the first line and ends with the last, and holds a line break as soon as there are two lines |
| Text.Strip | natural_python/console.py:149 | `strip()` never lengthens a line, and the result neither starts nor ends with whitespace |
| Text.Split | natural_python/language_model_api.py:47 | `split('\n')` yields at least one piece and no piece holds a line break |
| Text.JoinSplit | natural_python/language_model_api.py:47 | joining the pieces of a split with line breaks gives the text back |
| Text.SplitJoin | natural_python/interpreter.py:50-54 | splitting a join of a non-empty list of break-free lines gives the lines back (the prompt can be read line by line) |
| Text.StripIsTrimmedSlice | natural_python/console.py:149 | `strip()` returns a contiguous slice, only whitespace is cut at either end, and neither end of the result is whitespace |
| Text.StripIdempotent | natural_python/console.py:149 | stripping a stripped line changes nothing |
| LanguageModelApi.FilterLines | natural_python/language_model_api.py:47 | every surviving line is non-empty and is not the stop sequence `#`, and there are at most as many as in the input (that they are the input's own lines, in order, is `FilterLinesSubsequence`) |
| LanguageModelApi.CandidateLines | natural_python/language_model_api.py:47 | every candidate line is non-empty, is not `#` and holds no line break |
| LanguageModelApi.Candidates | natural_python/language_model_api.py:46-49 | one candidate per choice, in choice order, each the filtered lines of that choice's text |
| LanguageModelApi.FilterLinesSubsequence | natural_python/language_model_api.py:47 | the filter keeps an order-preserving subsequence of its input |
| LanguageModelApi.FilterLinesCounts | natural_python/language_model_api.py:47 | each kept line occurs as often as in the input and every dropped kind of line not at all, so exactly empty lines and `#` are removed |
| LanguageModelApi.FilterLinesKeepsKept | natural_python/language_model_api.py:47 | a list of non-empty, non-`#` lines passes the filter unchanged |
| LanguageModelApi.FilterLinesIdempotent | natural_python/language_model_api.py:47 | filtering an already-filtered candidate leaves it unchanged |
| LanguageModelApi.CandidateIsSubsequenceOfPieces | natural_python/language_model_api.py:47 | a candidate is an order-preserving subsequence of `text.split('\n')` |
| Interpreter.Commented | natural_python/interpreter.py:49 | one comment per line, in order; each is `# ` followed by exactly that line |
| Interpreter.GetPrompt | natural_python/interpreter.py:32-55 | the prompt is the text of the fixed header (no code yet) or of the code so far, then a line break and the text of the commented instruction; with no instruction only the first part |
| Interpreter.PromptLayout | natural_python/interpreter.py:32-55 | read back by lines, the prompt is the fixed three-line header and the commented instruction when there is no code yet, and the code and the commented instruction otherwise |
| Interpreter.CommentedKeepsNoLineBreaks | natural_python/interpreter.py:49 | commenting break-free lines leaves them break-free |
| Interpreter.AcceptedCodeHasNoLineBreaks | natural_python/interpreter.py:126-142 | accepted code (a candidate and the constraint) is break-free when the constraint is |
| Interpreter.PromptIgnoresConstraint | natural_python/interpreter.py:49-54 | the prompt is the same whatever the constraint |
| Interpreter.PromptEndsWithLastInstruction | natural_python/interpreter.py:49-55 | the prompt ends with a line break and the last instruction line as a comment, with no terminator after it |
| Interpreter.DropPrefix | natural_python/interpreter.py:96 | Python's `s[n:]`: the rest after the first `n` characters, or empty when `n` is past the end |
| Interpreter.GetNewCodeOutput | natural_python/interpreter.py:80-97 | fails exactly when the baseline run or the extended run fails; otherwise returns a suffix of the extended run's stdout whose length is the length difference, and baseline + result = extended output whenever the baseline is a prefix |
| Interpreter.FirstSuccess | natural_python/interpreter.py:127-142 | `NaturalInterpreterError` exactly when every candidate's trial fails, including when there are no candidates |
| Interpreter.FirstSuccessAcceptsFirst | natural_python/interpreter.py:127-138 | if candidate k is the first whose trial succeeds, the result is candidate k followed by the constraint, with that trial's output |
| Interpreter.FirstSuccessSound | natural_python/interpreter.py:127-142 | an accepted result is some candidate plus the constraint whose trial succeeded with the reported output, and every earlier candidate failed |
| Interpreter.AcceptedBlockRan | natural_python/interpreter.py:88-93 | accepted code ends with the constraint; the code so far and the code so far plus the accepted code both ran successfully; the output is the tail of the latter's stdout |
| Interpreter.PythonShell.GetCodeOutput | natural_python/interpreter.py:59-77 | one interpreter run: the oracle's stdout, or `None` on a non-zero exit, and the source is appended to the run log |
| Interpreter.TrialSources | natural_python/interpreter.py:88-93 | a trial runs the joined code so far first, and then the joined code so far plus the new code, only when that first run succeeded |
| Interpreter.RunNewCode | natural_python/interpreter.py:80-97 | `get_new_code_output` on the interpreter: returns exactly `GetNewCodeOutput`, and the interpreter ran exactly `TrialSources`, in order |
| Interpreter.Trial | natural_python/interpreter.py:128-137 | a candidate's trial succeeds exactly when the code so far runs and the code so far followed by the candidate and the constraint runs; its output is a tail of the latter's stdout |
| Interpreter.SearchSources | natural_python/interpreter.py:127-140 | the runs of the first `n` trials take between `n` and `2n` interpreter processes |
| Interpreter.TryCompletions | natural_python/interpreter.py:126-142 | the loop over the completions returns `FirstSuccess`; exactly the first `tried` trials ran, in order, and nothing else ran; on success the last of them is the accepted one and the earlier ones failed; on failure every trial ran and failed |
| Interpreter.ExecuteNaturalProgram | natural_python/interpreter.py:100-142 | equals the reference `Execute`; the interpreter ran exactly the first `tried` trials of the sampled candidates and nothing after them; every trial before the `tried`-th failed; on success the `tried`-th candidate's trial succeeded with the reported output and it is the accepted one; on failure every candidate was tried and every trial failed |
| Interpreter.CandidatesFor | natural_python/interpreter.py:113-124 | one candidate per sampled choice for the prompt of the code so far and the instruction, and every candidate line is kept by the filter and holds no line break |
| Interpreter.Execute | natural_python/interpreter.py:100-142 | `NaturalInterpreterError` exactly when every sampled candidate's trial fails; accepted code always ends with the constraint |
| Console.Restart | natural_python/console.py:98-101 | the restarting iteration empties both buffers, reads instructions again, keeps the code and establishes the invariant |
| Console.ParseError | natural_python/console.py:189-191 | a parse error shows its cause and moves to restarting; the code is kept and the following iteration empties both buffers |
| Console.ExecuteBlock | natural_python/console.py:102-134 | the execution iteration always moves to restarting and never shortens the code |
| Console.ReadLine | natural_python/console.py:145-191 | a reading iteration keeps the old code as a prefix and changes it only in raw mode, by the stripped line; each buffer either stays or gains the stripped line; it reaches `ready_to_execute` only on an empty line with a non-empty block; it keeps `Inv` |
| Console.Drive | natural_python/console.py:96-192 | the code the loop returns from a session extends that session's code (the code is append-only) |
| Console.Repl | natural_python/console.py:76-192 | the loop with its local variables returns exactly `Drive` of the initial session over the input lines |
| Console.RestartKeywordResets | natural_python/console.py:163-164 | `restart` moves to restarting, and the automatic iteration then empties both buffers, reads instructions and keeps the code |
| Console.ConstraintKeywordLegality | natural_python/console.py:157-162 | `finally:` moves instruction reading to constraint reading; in the other reading states it reports a cause and restarts |
| Console.PythonKeywordLegality | natural_python/console.py:165-168 | `python` enters raw-code mode if and only if both buffers are empty; otherwise it reports a cause and restarts; no buffer changes |
| Console.EmptyLineEndsBlock | natural_python/console.py:169-175 | an empty line restarts if and only if both buffers are empty, and moves to `ready_to_execute` if and only if one is not |
| Console.RawModeEmptyLineRestarts | natural_python/console.py:169-183 | in a reachable raw-code session an empty line always restarts |
| Console.LineLandsInOneBuffer | natural_python/console.py:176-186 | a non-empty non-keyword line is appended to exactly the buffer the state selects (instruction, constraint or code) and nothing else changes; the fallback error is unreachable |
| Console.HelpAndExitChangeNothing | natural_python/console.py:152-156 | `help` and `exit` leave state and buffers unchanged; `exit` stops |
| Console.InputStrippedBeforeMatching | natural_python/console.py:146-150 | a line and its stripped form cause the same iteration |
| Console.ExitOrEndOfInputReturnsCode | natural_python/console.py:187-192 | end-of-input, and `exit` whatever follows it, return the code accumulated so far |
| Console.ExecuteBlockAppendsAccepted | natural_python/console.py:126-134 | on success the code grows by the commented instruction, then a candidate whose trial succeeded, then the constraint; on failure it is unchanged; either way the next state is restarting |
| Console.SessionAppendsPieces | natural_python/console.py:96-192 | over any input, a reachable session's returned code is its code followed by pieces, each a stripped non-keyword raw-code line or an accepted non-empty block (the commented instruction, a candidate sampled for and successfully tried after exactly the code before it, and the constraint) |
| Console.IterationsKeepInv | natural_python/console.py:165-175 | the invariant (raw mode has empty buffers; the engine only sees non-empty blocks) holds initially and is kept by the automatic iterations |
| Console.DriveKeepsNoLineBreaks | natural_python/console.py:96-192 | when no input line holds a line break, as `input()` guarantees, the code a session returns holds none either |
| Console.ReadLineKeepsBreakFree | natural_python/console.py:144-192 | a reading iteration on a line without a line break leaves the instruction, constraint and code buffers break-free |
| Console.ExecuteBlockKeepsBreakFree | natural_python/console.py:102-134 | the execution iteration keeps every buffer break-free: the commented instruction and the accepted code hold no line break |
| Console.SessionPromptLayout | natural_python/console.py:102-119 | the prompt of every block a break-free session runs reads back by lines as the code so far (or the header) followed by the commented instruction |
| Console.SingleBlockSession | natural_python/console.py:96-192 | instruction, `finally:`, constraint and an empty line make one engine call on exactly that block; the session returns the commented instruction plus the accepted code, or nothing |
| LegacyConsole.Restart | natural_python/__main__.py:90-93 | the restarting iteration empties both buffers, reads instructions again, keeps the code and establishes the invariant |
| LegacyConsole.ExecuteBlock | natural_python/__main__.py:94-126 | the execution iteration always moves to restarting and never shortens the code |
| LegacyConsole.ReadLine | natural_python/__main__.py:135-174 | a reading iteration never changes the code; each buffer either stays or gains the stripped line; a parse error leaves the whole session unchanged; it keeps `Inv` |
| LegacyConsole.Drive | natural_python/__main__.py:88-174 | the final code extends the code of the session it started from |
| LegacyConsole.Repl | natural_python/__main__.py:68-174 | the loop with its local variables ends with exactly `Drive` of the initial session over the input lines |
| LegacyConsole.RestartKeywordResets | natural_python/__main__.py:153-154 | `restart` moves to restarting, and the automatic iteration then empties both buffers and keeps the code |
| LegacyConsole.ConstraintKeywordLegality | natural_python/__main__.py:147-152 | `finally:` moves instruction reading to constraint reading; while reading the constraint it reports a parse error and changes nothing |
| LegacyConsole.EmptyLineEndsBlock | natural_python/__main__.py:155-161 | an empty line restarts if and only if both buffers are empty, and moves to `ready_to_execute` if and only if one is not |
| LegacyConsole.LineLandsInOneBuffer | natural_python/__main__.py:162-170 | a non-empty non-keyword line is appended to the buffer the state selects and nothing else changes; the fallback error is unreachable |
| LegacyConsole.PythonIsOrdinaryText | natural_python/__main__.py:18-23 | `python` is not a keyword here: it is appended as instruction or constraint text |
| LegacyConsole.HelpAndExitChangeNothing | natural_python/__main__.py:142-146 | `help` and `exit` leave state and buffers unchanged; `exit` stops |
| LegacyConsole.InputStrippedBeforeMatching | natural_python/__main__.py:136-140 | a line and its stripped form cause the same iteration |
| LegacyConsole.ExitOrEndOfInputReturnsCode | natural_python/__main__.py:171-172 | end-of-input, and `exit` whatever follows it, end the session with the code accumulated so far |
| LegacyConsole.ExecuteBlockAppendsAccepted | natural_python/__main__.py:117-126 | code changes only on engine success, by the commented instruction followed by a succeeding candidate and the constraint; the next state is restarting |
| LegacyConsole.SessionAppendsBlocks | natural_python/__main__.py:88-174 | over any input, a reachable session's returned code is its code followed only by accepted blocks, each sampled for and successfully tried after exactly the code before it; no line is appended raw |
| LegacyConsole.IterationsKeepInv | natural_python/__main__.py:155-161 | the engine only sees non-empty blocks: the invariant holds initially and is kept by the automatic iterations |
| LegacyConsole.ComparedWithConsole | natural_python/__main__.py:147-174 | compared with the newer console, a misplaced `finally:` changes nothing instead of restarting, and `python` is text instead of a keyword; on every other line both make the same transition |

## Left out

- The process I/O inside `get_code_output` (`interpreter.py:59-77`) is not modelled: temporary files, `shlex.split` and `subprocess.run`. `PythonShell.GetCodeOutput` returns what the oracle `Env.run` gives and logs the source. Because the oracle is a function, repeated baseline runs always agree. Real code that behaves differently on each run is outside the model.
- The provider calls `get_engines`, `get_engine_ids` and `Completion.create` (`language_model_api.py:6-45`) are network calls. `Env.sample` gives the choice texts, and only the candidate comprehension is modelled.
- `main` and `print_start_message` in both console files are not modelled: argument parsing, the API key or configuration file, engine validation, writing the output file and the version banner.
- Printing, the help text and the input prompts (`>>> # `, `>>> `, `+++ `) are not modelled. The `Event` values only say what an iteration would show.
- Interrupts other than end-of-file raised by `input()` are not modelled.
- The provider parameters (temperature, token limit, engine) are not modelled; they only affect what the provider returns.
- `Env.sample` is a function of the prompt and the count, so the model covers only sessions in which the same prompt gets the same choices. Sampling a repeated prompt afresh, as the provider does at a non-zero temperature (`console.py:230-235`), is outside it: for example, a block that failed and is entered again on unchanged code gets new candidates in the source and the same ones here. `SessionAppendsPieces` and `SessionAppendsBlocks` hold for such deterministic providers only.
- LegacyConsole.Repl: the source's `repl` in `__main__.py` returns nothing. The model returns the final code buffer so that a session's result can be stated.
- Failures other than a non-zero exit status are not modelled. The source catches only `PythonInterpreterError` (`interpreter.py:139`) and `NaturalInterpreterError` (`console.py:131`, `__main__.py:123`). A provider or network error from `Completion.create`, or an `OSError` from `subprocess.run` or the temporary file (for example a missing shell command), escapes `repl`, ends the program and loses the session's code. Here `Env.run` and `Env.sample` always return.
- Two wiring defects in the glue are not modelled. `interpreter.py:116-124` passes `completion_n=` where the parameter is `sample_n`. `__main__.py:247` calls `get_engine_ids` with one argument where it takes two. The model passes the count straight to the provider.
