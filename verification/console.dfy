/** The read-eval-print loop of `console.py`: a state machine over trimmed input lines
    that collects an instruction and a constraint, hands the block to the trial engine,
    and accumulates the accepted code.  It also has a raw-code mode (`python`). */
module Console {
  import opened Text
  import Interpreter

  const HelpKeyword: string := "help"
  const ExitKeyword: string := "exit"
  const ConstraintKeyword: string := "finally:"
  const RestartKeyword: string := "restart"
  const PythonKeyword: string := "python"
  const Keywords: seq<string> := [HelpKeyword, ExitKeyword, ConstraintKeyword, RestartKeyword, PythonKeyword]

  datatype State =
    | ReadingInstruction
    | ReadingConstraint
    | ReadingRawCode
    | RestartingInstructionReading
    | ReadyToExecute

  /** The states in which the loop reads a line; the other two act without input. */
  predicate IsReading(state: State)
  {
    state.ReadingInstruction? || state.ReadingConstraint? || state.ReadingRawCode?
  }

  /** How many automatic iterations a state is away from reading input. */
  function Rank(state: State): nat
  {
    match state
    case ReadyToExecute => 2
    case RestartingInstructionReading => 1
    case _ => 0
  }

  /** The variables of `repl`: the state and its three line buffers. */
  datatype Session = Session(state: State, instruction: seq<string>, constraint: seq<string>, code: seq<string>)

  /** What an iteration shows the user, and whether it ends the loop. */
  datatype Event =
    | Quiet
    | ShowHelp
    | ShowCause(cause: string)
    | ShowExecuted(newCode: seq<string>, output: string)
    | ShowBudgetError
    | Stop

  const Initial: Session := Session(ReadingInstruction, [], [], [])

  /** What every reachable session satisfies: raw-code mode has empty buffers (it can
      only be entered with them empty and never fills them), and the engine is only
      reached with a non-empty block. */
  predicate Inv(s: Session)
  {
    && (s.state == ReadingRawCode ==> s.instruction == [] && s.constraint == [])
    && (s.state == ReadyToExecute ==> s.instruction != [] || s.constraint != [])
  }

  /** No keyword is empty, so an empty line is never taken for one. */
  lemma EmptyIsNoKeyword()
    ensures "" !in Keywords
  {
    assert forall k :: k in Keywords ==> |k| > 0;
  }

  /** The `restarting_instruction_reading` iteration. */
  function Restart(s: Session): (r: Session)
    ensures r.state == ReadingInstruction && r.instruction == [] && r.constraint == []
    ensures r.code == s.code && Inv(r)
  {
    Session(ReadingInstruction, [], [], s.code)
  }

  /** The `ready_to_execute` iteration: run the engine on the block; on success record
      the instruction as comments followed by the accepted code. */
  function ExecuteBlock(s: Session, env: Interpreter.Env): (r: (Session, Event))
    ensures r.0.state == RestartingInstructionReading
    ensures s.code <= r.0.code
  {
    var program := Interpreter.NaturalProgram(s.instruction, s.constraint);
    match Interpreter.Execute(program, s.code, env)
    case Executed(newCode, output) =>
      var code := s.code + Interpreter.Commented(program.instruction) + newCode;
      (s.(state := RestartingInstructionReading, code := code), ShowExecuted(newCode, output))
    case NaturalInterpreterError =>
      (s.(state := RestartingInstructionReading), ShowBudgetError)
  }

  /** A `ParseException` is reported and leads to a restart. */
  function ParseError(s: Session, cause: string): (r: (Session, Event))
    ensures r.1 == ShowCause(cause) && r.0.state == RestartingInstructionReading && Inv(r.0)
    ensures r.0.code == s.code && Restart(r.0) == Session(ReadingInstruction, [], [], s.code)
  {
    (s.(state := RestartingInstructionReading), ShowCause(cause))
  }

  /** An input-reading iteration, given the raw line the user typed.  The line is
      stripped first; it changes at most one buffer, by appending itself. */
  function ReadLine(s: Session, raw: string): (r: (Session, Event))
    requires IsReading(s.state)
    ensures s.code <= r.0.code
    ensures r.0.code == s.code || (s.state == ReadingRawCode && r.0.code == s.code + [Strip(raw)])
    ensures r.0.instruction == s.instruction || r.0.instruction == s.instruction + [Strip(raw)]
    ensures r.0.constraint == s.constraint || r.0.constraint == s.constraint + [Strip(raw)]
    ensures r.0.state == ReadyToExecute ==> Strip(raw) == "" && (s.instruction != [] || s.constraint != [])
    ensures Inv(s) ==> Inv(r.0)
  {
    var userInput := Strip(raw);
    if userInput in Keywords then
      if userInput == HelpKeyword then (s, ShowHelp)
      else if userInput == ExitKeyword then (s, Stop)
      else if userInput == ConstraintKeyword then
        if s.state != ReadingInstruction then
          ParseError(s, "You can only use '" + ConstraintKeyword + "' while providing instructions!")
        else (s.(state := ReadingConstraint), Quiet)
      else if userInput == RestartKeyword then (s.(state := RestartingInstructionReading), Quiet)
      else // the python keyword
        if |s.instruction| != 0 || |s.constraint| != 0 then
          ParseError(s, "You can only use '" + PythonKeyword + "' before providing any instructions or constraints!")
        else (s.(state := ReadingRawCode), Quiet)
    else if |userInput| == 0 then
      if |s.instruction| == 0 && |s.constraint| == 0 then (s.(state := RestartingInstructionReading), Quiet)
      else (s.(state := ReadyToExecute), Quiet)
    else if s.state == ReadingInstruction then (s.(instruction := s.instruction + [userInput]), Quiet)
    else if s.state == ReadingConstraint then (s.(constraint := s.constraint + [userInput]), Quiet)
    else if s.state == ReadingRawCode then (s.(code := s.code + [userInput]), Quiet)
    else ParseError(s, "You did not format your input correctly... try again...")
  }

  /** The whole loop as a value: the code `repl` returns after consuming `inputs` from
      session `s`.  Running out of input is end-of-file.  Code only ever grows. */
  function Drive(s: Session, inputs: seq<string>, env: Interpreter.Env): (code: seq<string>)
    ensures s.code <= code
    decreases |inputs|, Rank(s.state)
  {
    if s.state == RestartingInstructionReading then Drive(Restart(s), inputs, env)
    else if s.state == ReadyToExecute then Drive(ExecuteBlock(s, env).0, inputs, env)
    else if |inputs| == 0 then s.code
    else
      var (next, event) := ReadLine(s, inputs[0]);
      if event.Stop? then next.code else Drive(next, inputs[1..], env)
  }

  /** `repl`: the loop over the input lines, with the engine called on every block. */
  method Repl(inputs: seq<string>, env: Interpreter.Env) returns (currentPythonCode: seq<string>)
    ensures currentPythonCode == Drive(Initial, inputs, env)
  {
    var shell := new Interpreter.PythonShell(env.run);
    var keepInterpreting := true;
    var currentInstruction: seq<string> := [];
    var currentConstraint: seq<string> := [];
    currentPythonCode := [];
    var state := ReadingInstruction;
    var next := 0;
    while keepInterpreting
      invariant 0 <= next <= |inputs|
      invariant keepInterpreting ==>
                  Drive(Session(state, currentInstruction, currentConstraint, currentPythonCode), inputs[next..], env)
                  == Drive(Initial, inputs, env)
      invariant !keepInterpreting ==> currentPythonCode == Drive(Initial, inputs, env)
      decreases |inputs| - next + (if keepInterpreting then 1 else 0), Rank(state)
    {
      if state == RestartingInstructionReading {
        currentInstruction := [];
        currentConstraint := [];
        state := ReadingInstruction;
      } else if state == ReadyToExecute {
        var program := Interpreter.NaturalProgram(currentInstruction, currentConstraint);
        var result, _ := Interpreter.ExecuteNaturalProgram(program, currentPythonCode, env, shell);
        if result.Executed? {
          currentPythonCode := currentPythonCode + Interpreter.Commented(program.instruction) + result.newCode;
        }
        state := RestartingInstructionReading;
      } else if next == |inputs| {
        // end of input
        keepInterpreting := false;
      } else {
        var userInput := Strip(inputs[next]);
        assert inputs[next..][1..] == inputs[next + 1..];
        next := next + 1;
        if userInput in Keywords {
          if userInput == HelpKeyword {
          } else if userInput == ExitKeyword {
            keepInterpreting := false;
          } else if userInput == ConstraintKeyword {
            if state != ReadingInstruction {
              state := RestartingInstructionReading;
            } else {
              state := ReadingConstraint;
            }
          } else if userInput == RestartKeyword {
            state := RestartingInstructionReading;
          } else if |currentInstruction| != 0 || |currentConstraint| != 0 {
            state := RestartingInstructionReading;
          } else {
            state := ReadingRawCode;
          }
        } else if |userInput| == 0 {
          if |currentInstruction| == 0 && |currentConstraint| == 0 {
            state := RestartingInstructionReading;
          } else {
            state := ReadyToExecute;
          }
        } else if state == ReadingInstruction {
          currentInstruction := currentInstruction + [userInput];
        } else if state == ReadingConstraint {
          currentConstraint := currentConstraint + [userInput];
        } else if state == ReadingRawCode {
          currentPythonCode := currentPythonCode + [userInput];
        } else {
          state := RestartingInstructionReading;
        }
      }
    }
  }

  /** `restart` from any reading state leads to a restart, and the automatic iteration
      after it empties both buffers, reads instructions again and keeps the code. */
  lemma RestartKeywordResets(s: Session, raw: string)
    requires IsReading(s.state) && Strip(raw) == RestartKeyword
    ensures var (next, event) := ReadLine(s, raw);
            && next == s.(state := RestartingInstructionReading) && event == Quiet
            && Restart(next) == Session(ReadingInstruction, [], [], s.code)
  {
  }

  /** `finally:` starts the constraint while reading the instruction; in the other
      reading states it is a parse error that leads to a restart with buffers intact. */
  lemma ConstraintKeywordLegality(s: Session, raw: string)
    requires IsReading(s.state) && Strip(raw) == ConstraintKeyword
    ensures var (next, event) := ReadLine(s, raw);
            && (s.state == ReadingInstruction ==> next == s.(state := ReadingConstraint) && event == Quiet)
            && (s.state != ReadingInstruction ==>
                  next == s.(state := RestartingInstructionReading) && event.ShowCause?)
  {
  }

  /** `python` enters raw-code mode exactly when both buffers are empty, from whichever
      reading state; otherwise it is a parse error leading to a restart. */
  lemma PythonKeywordLegality(s: Session, raw: string)
    requires IsReading(s.state) && Strip(raw) == PythonKeyword
    ensures var (next, event) := ReadLine(s, raw);
            && (next.state == ReadingRawCode <==> s.instruction == [] && s.constraint == [])
            && (s.instruction != [] || s.constraint != [] ==>
                  next == s.(state := RestartingInstructionReading) && event.ShowCause?)
            && next.instruction == s.instruction && next.constraint == s.constraint && next.code == s.code
  {
  }

  /** An empty line ends the block: an empty block restarts, any other is executed. */
  lemma EmptyLineEndsBlock(s: Session, raw: string)
    requires IsReading(s.state) && Strip(raw) == ""
    ensures var (next, event) := ReadLine(s, raw);
            && event == Quiet
            && next.instruction == s.instruction && next.constraint == s.constraint && next.code == s.code
            && (next.state == RestartingInstructionReading <==> s.instruction == [] && s.constraint == [])
            && (next.state == ReadyToExecute <==> s.instruction != [] || s.constraint != [])
  {
    EmptyIsNoKeyword();
  }

  /** In a reachable raw-code session an empty line always restarts. */
  lemma RawModeEmptyLineRestarts(s: Session, raw: string)
    requires Inv(s) && s.state == ReadingRawCode && Strip(raw) == ""
    ensures ReadLine(s, raw).0 == s.(state := RestartingInstructionReading)
  {
  }

  /** A non-empty line that is not a keyword lands in exactly one buffer, chosen by the
      state, and nothing else changes (so the fallback parse error never happens). */
  lemma LineLandsInOneBuffer(s: Session, raw: string)
    requires IsReading(s.state)
    requires Strip(raw) != "" && Strip(raw) !in Keywords
    ensures var (next, event) := ReadLine(s, raw);
            var line := Strip(raw);
            && event == Quiet && next.state == s.state
            && next.instruction == (if s.state == ReadingInstruction then s.instruction + [line] else s.instruction)
            && next.constraint == (if s.state == ReadingConstraint then s.constraint + [line] else s.constraint)
            && next.code == (if s.state == ReadingRawCode then s.code + [line] else s.code)
  {
  }

  /** `help` changes nothing; `exit` changes nothing and stops the loop. */
  lemma HelpAndExitChangeNothing(s: Session, raw: string)
    requires IsReading(s.state)
    ensures Strip(raw) == HelpKeyword ==> ReadLine(s, raw) == (s, ShowHelp)
    ensures Strip(raw) == ExitKeyword ==> ReadLine(s, raw) == (s, Stop)
  {
  }

  /** Input is stripped before it is matched: a line and its stripped form act alike. */
  lemma InputStrippedBeforeMatching(s: Session, raw: string)
    requires IsReading(s.state)
    ensures ReadLine(s, raw) == ReadLine(s, Strip(raw))
  {
    StripIdempotent(raw);
  }

  /** `exit` and end-of-input both end the session with the code accumulated so far,
      whatever input would have followed. */
  lemma ExitOrEndOfInputReturnsCode(s: Session, raw: string, rest: seq<string>, env: Interpreter.Env)
    requires IsReading(s.state)
    ensures Drive(s, [], env) == s.code
    ensures Strip(raw) == ExitKeyword ==> Drive(s, [raw] + rest, env) == s.code
  {
  }

  /** The execution iteration: on success the code grows by the commented instruction
      lines, then a candidate whose trial succeeded, then the constraint; on failure it
      is unchanged.  Either way the next state is a restart with the buffers untouched. */
  lemma ExecuteBlockAppendsAccepted(s: Session, env: Interpreter.Env)
    ensures var (next, event) := ExecuteBlock(s, env);
            var program := Interpreter.NaturalProgram(s.instruction, s.constraint);
            var candidates := Interpreter.CandidatesFor(program, s.code, env);
            && next.state == RestartingInstructionReading
            && next.instruction == s.instruction && next.constraint == s.constraint
            && (event.ShowBudgetError? ==> next.code == s.code)
            && (event.ShowExecuted? ==>
                  exists k ::
                    && 0 <= k < |candidates|
                    && Interpreter.Trial(candidates[k], program, s.code, env.run).Some?
                    && next.code == s.code + Interpreter.Commented(s.instruction) + (candidates[k] + s.constraint))
  {
    var program := Interpreter.NaturalProgram(s.instruction, s.constraint);
    var candidates := Interpreter.CandidatesFor(program, s.code, env);
    match Interpreter.Execute(program, s.code, env)
    case Executed(newCode, output) =>
      var next := s.(state := RestartingInstructionReading,
                     code := s.code + Interpreter.Commented(s.instruction) + newCode);
      assert ExecuteBlock(s, env) == (next, ShowExecuted(newCode, output));
      var k := Interpreter.AcceptedCandidate(program, s.code, env);
      assert && 0 <= k < |candidates|
             && Interpreter.Trial(candidates[k], program, s.code, env.run).Some?
             && next.code == s.code + Interpreter.Commented(s.instruction) + (candidates[k] + s.constraint);
    case NaturalInterpreterError =>
      assert ExecuteBlock(s, env) == (s.(state := RestartingInstructionReading), ShowBudgetError);
  }

  /** Every iteration keeps the session invariant, which holds initially. */
  lemma IterationsKeepInv(s: Session, env: Interpreter.Env)
    requires Inv(s)
    ensures Inv(Initial)
    ensures s.state == RestartingInstructionReading ==> Inv(Restart(s))
    ensures s.state == ReadyToExecute ==> Inv(ExecuteBlock(s, env).0)
  {
  }

  /** No buffer of the session holds a line break. */
  predicate BreakFree(s: Session)
  {
    NoLineBreaks(s.instruction) && NoLineBreaks(s.constraint) && NoLineBreaks(s.code)
  }

  /** `input()` never returns a line break, so the code a session builds never holds
      one either: raw lines, instruction comments, sampled candidate lines and constraint
      lines are all break-free.  The iterations keep `BreakFree`, which holds initially,
      so `SessionPromptLayout` applies to every block the console runs. */
  lemma {:induction false} DriveKeepsNoLineBreaks(s: Session, inputs: seq<string>, env: Interpreter.Env)
    requires BreakFree(s) && NoLineBreaks(inputs)
    ensures NoLineBreaks(Drive(s, inputs, env))
    decreases |inputs|, Rank(s.state)
  {
    if s.state == RestartingInstructionReading {
      DriveKeepsNoLineBreaks(Restart(s), inputs, env);
    } else if s.state == ReadyToExecute {
      ExecuteBlockKeepsBreakFree(s, env);
      DriveKeepsNoLineBreaks(ExecuteBlock(s, env).0, inputs, env);
    } else if |inputs| > 0 {
      ReadLineKeepsBreakFree(s, inputs[0]);
      var (next, event) := ReadLine(s, inputs[0]);
      if !event.Stop? {
        DriveKeepsNoLineBreaks(next, inputs[1..], env);
      }
    }
  }

  // Appending break-free lines to break-free lines.
  lemma AppendKeepsNoLineBreaks(a: seq<string>, b: seq<string>)
    requires NoLineBreaks(a) && NoLineBreaks(b)
    ensures NoLineBreaks(a + b)
  {
    forall i | 0 <= i < |a + b| ensures '\n' !in (a + b)[i] {
      if i >= |a| {
        assert (a + b)[i] == b[i - |a|];
      }
    }
  }

  // A reading iteration on a break-free line keeps the session break-free.
  lemma ReadLineKeepsBreakFree(s: Session, raw: string)
    requires IsReading(s.state) && BreakFree(s) && '\n' !in raw
    ensures BreakFree(ReadLine(s, raw).0)
  {
    StripKeepsNoLineBreak(raw);
    AppendKeepsNoLineBreaks(s.instruction, [Strip(raw)]);
    AppendKeepsNoLineBreaks(s.constraint, [Strip(raw)]);
    AppendKeepsNoLineBreaks(s.code, [Strip(raw)]);
  }

  // The execution iteration keeps the session break-free.
  lemma ExecuteBlockKeepsBreakFree(s: Session, env: Interpreter.Env)
    requires s.state == ReadyToExecute && BreakFree(s)
    ensures BreakFree(ExecuteBlock(s, env).0)
  {
    var program := Interpreter.NaturalProgram(s.instruction, s.constraint);
    match Interpreter.Execute(program, s.code, env)
    case NaturalInterpreterError =>
    case Executed(newCode, output) =>
      Interpreter.CommentedKeepsNoLineBreaks(s.instruction);
      Interpreter.AcceptedCodeHasNoLineBreaks(program, s.code, env);
      AppendKeepsNoLineBreaks(s.code, Interpreter.Commented(s.instruction));
      AppendKeepsNoLineBreaks(s.code + Interpreter.Commented(s.instruction), newCode);
  }

  /** The prompt of every block a break-free session runs reads back line by line as
      the code so far (or the header) followed by the commented instruction. */
  lemma SessionPromptLayout(s: Session)
    requires s.state == ReadyToExecute && BreakFree(s)
    ensures var prompt := Interpreter.GetPrompt(s.code, Interpreter.NaturalProgram(s.instruction, s.constraint));
            && (s.code == [] ==> Split(prompt) == Interpreter.ScriptHeader + Interpreter.Commented(s.instruction))
            && (s.code != [] ==> Split(prompt) == s.code + Interpreter.Commented(s.instruction))
  {
    Interpreter.PromptLayout(s.code, Interpreter.NaturalProgram(s.instruction, s.constraint));
  }

  /** What a session appends to its code, one piece at a time: a raw-code line, or an
      accepted block (the commented instruction, a sampled candidate, the constraint). */
  datatype Piece =
    | RawLine(line: string)
    | AcceptedBlock(program: Interpreter.NaturalProgram, candidate: seq<string>)

  function PieceLines(p: Piece): seq<string>
  {
    match p
    case RawLine(line) => [line]
    case AcceptedBlock(program, candidate) =>
      Interpreter.Commented(program.instruction) + (candidate + program.constraint)
  }

  /** The lines of the pieces, one piece after the other. */
  function Concat(pieces: seq<Piece>): seq<string>
  {
    if pieces == [] then [] else PieceLines(pieces[0]) + Concat(pieces[1..])
  }

  /** Whether `p` could be appended to `code`: a raw line is a stripped, non-empty line
      that is no keyword; a block is non-empty, its candidate was sampled for `code`, and
      its trial after `code` succeeded. */
  predicate ValidPiece(p: Piece, code: seq<string>, env: Interpreter.Env)
  {
    match p
    case RawLine(line) => line != "" && line !in Keywords && Strip(line) == line
    case AcceptedBlock(program, candidate) =>
      && (program.instruction != [] || program.constraint != [])
      && candidate in Interpreter.CandidatesFor(program, code, env)
      && Interpreter.Trial(candidate, program, code, env.run).Some?
  }

  /** Every piece is valid for the code built before it. */
  predicate ValidPieces(code: seq<string>, pieces: seq<Piece>, env: Interpreter.Env)
    decreases |pieces|
  {
    pieces == [] || (ValidPiece(pieces[0], code, env) && ValidPieces(code + PieceLines(pieces[0]), pieces[1..], env))
  }

  /** The code of a reachable session only ever grows by valid pieces: whatever lines
      follow, the returned code is the session's code followed by raw-code lines and
      accepted blocks, each block's candidate sampled for, and run after, exactly the
      code before it. */
  lemma SessionAppendsPieces(s: Session, inputs: seq<string>, env: Interpreter.Env)
    requires Inv(s)
    ensures exists pieces :: ValidPieces(s.code, pieces, env) && Drive(s, inputs, env) == s.code + Concat(pieces)
  {
    var pieces := DrivePieces(s, inputs, env);
  }

  // `SessionAppendsPieces` with the pieces constructed.
  lemma {:induction false} DrivePieces(s: Session, inputs: seq<string>, env: Interpreter.Env)
    returns (pieces: seq<Piece>)
    requires Inv(s)
    ensures ValidPieces(s.code, pieces, env) && Drive(s, inputs, env) == s.code + Concat(pieces)
    decreases |inputs|, Rank(s.state)
  {
    if s.state == RestartingInstructionReading {
      pieces := DrivePieces(Restart(s), inputs, env);
    } else if s.state == ReadyToExecute {
      var next := ExecuteBlock(s, env).0;
      IterationsKeepInv(s, env);
      var rest := DrivePieces(next, inputs, env);
      pieces := ExecutedPieces(s, env, rest);
    } else if |inputs| == 0 {
      pieces := [];
    } else {
      var (next, event) := ReadLine(s, inputs[0]);
      var tail := [];
      if !event.Stop? {
        tail := DrivePieces(next, inputs[1..], env);
      }
      pieces := ReadPieces(s, inputs[0], tail, env);
    }
  }

  // The execution iteration adds at most one accepted block in front of what follows.
  lemma ExecutedPieces(s: Session, env: Interpreter.Env, rest: seq<Piece>) returns (pieces: seq<Piece>)
    requires s.state == ReadyToExecute && Inv(s)
    requires ValidPieces(ExecuteBlock(s, env).0.code, rest, env)
    ensures ValidPieces(s.code, pieces, env)
    ensures ExecuteBlock(s, env).0.code + Concat(rest) == s.code + Concat(pieces)
  {
    var next := ExecuteBlock(s, env).0;
    var program := Interpreter.NaturalProgram(s.instruction, s.constraint);
    match Interpreter.Execute(program, s.code, env)
    case NaturalInterpreterError =>
      pieces := rest;
    case Executed(newCode, output) =>
      var k := Interpreter.AcceptedCandidate(program, s.code, env);
      var p := AcceptedBlock(program, Interpreter.CandidatesFor(program, s.code, env)[k]);
      AppendAssociates(s.code, Interpreter.Commented(s.instruction), newCode);
      assert next.code == s.code + PieceLines(p);
      pieces := [p] + rest;
      assert pieces[1..] == rest;
      AppendAssociates(s.code, PieceLines(p), Concat(rest));
  }

  // A reading iteration adds at most one raw-code line in front of what follows.
  lemma ReadPieces(s: Session, raw: string, tail: seq<Piece>, env: Interpreter.Env) returns (pieces: seq<Piece>)
    requires IsReading(s.state)
    requires ValidPieces(ReadLine(s, raw).0.code, tail, env)
    ensures ValidPieces(s.code, pieces, env)
    ensures ReadLine(s, raw).0.code + Concat(tail) == s.code + Concat(pieces)
  {
    var next := ReadLine(s, raw).0;
    if next.code == s.code {
      pieces := tail;
    } else {
      RawLineAppended(s, raw);
      var line := Strip(raw);
      StripIdempotent(raw);
      assert next.code == s.code + [line];
      pieces := [RawLine(line)] + tail;
      assert pieces[1..] == tail;
      AppendAssociates(s.code, [line], Concat(tail));
    }
  }

  // A reading iteration that changes the code appends a stripped, non-empty, non-keyword
  // line in raw-code mode and goes on reading.
  lemma RawLineAppended(s: Session, raw: string)
    requires IsReading(s.state) && ReadLine(s, raw).0.code != s.code
    ensures Strip(raw) != "" && Strip(raw) !in Keywords && ReadLine(s, raw).1 == Quiet
  {
  }

  /** A one-block session: an instruction line, `finally:`, a constraint line and an
      empty line, each possibly padded with whitespace.  The engine runs once on exactly
      that block, and the returned code is the commented instruction followed by the
      accepted code, or nothing when no candidate ran. */
  lemma SingleBlockSession(instructionLine: string, finallyLine: string, constraintLine: string,
                           blankLine: string, env: Interpreter.Env)
    requires Strip(instructionLine) != "" && Strip(instructionLine) !in Keywords
    requires Strip(finallyLine) == ConstraintKeyword
    requires Strip(constraintLine) != "" && Strip(constraintLine) !in Keywords
    requires Strip(blankLine) == ""
    ensures var instruction, constraint := Strip(instructionLine), Strip(constraintLine);
            var result := Interpreter.Execute(Interpreter.NaturalProgram([instruction], [constraint]), [], env);
            Drive(Initial, [instructionLine, finallyLine, constraintLine, blankLine], env)
            == (if result.Executed? then ["# " + instruction] + result.newCode else [])
  {
    var instruction, constraint := Strip(instructionLine), Strip(constraintLine);
    BlockIsRead(instructionLine, finallyLine, constraintLine, blankLine, env);
    ReadyBlockRuns(instruction, constraint, env);
  }

  // The reading half of `SingleBlockSession`: four lines lead to `ready_to_execute`.
  lemma BlockIsRead(instructionLine: string, finallyLine: string, constraintLine: string,
                    blankLine: string, env: Interpreter.Env)
    requires Strip(instructionLine) != "" && Strip(instructionLine) !in Keywords
    requires Strip(finallyLine) == ConstraintKeyword
    requires Strip(constraintLine) != "" && Strip(constraintLine) !in Keywords
    requires Strip(blankLine) == ""
    ensures Drive(Initial, [instructionLine, finallyLine, constraintLine, blankLine], env)
            == Drive(Session(ReadyToExecute, [Strip(instructionLine)], [Strip(constraintLine)], []), [], env)
  {
    var instruction, constraint := Strip(instructionLine), Strip(constraintLine);
    var inputs := [instructionLine, finallyLine, constraintLine, blankLine];
    var s1 := Session(ReadingInstruction, [instruction], [], []);
    var s2 := Session(ReadingConstraint, [instruction], [], []);
    var s3 := Session(ReadingConstraint, [instruction], [constraint], []);
    var s4 := Session(ReadyToExecute, [instruction], [constraint], []);
    assert Drive(Initial, inputs, env) == Drive(s1, inputs[1..], env) by {
      LineLandsInOneBuffer(Initial, instructionLine);
      assert Initial.instruction + [instruction] == [instruction];
    }
    assert Drive(s1, inputs[1..], env) == Drive(s2, inputs[2..], env) by {
      ConstraintKeywordLegality(s1, finallyLine);
      assert inputs[1..][1..] == inputs[2..];
    }
    assert Drive(s2, inputs[2..], env) == Drive(s3, inputs[3..], env) by {
      LineLandsInOneBuffer(s2, constraintLine);
      assert s2.constraint + [constraint] == [constraint];
      assert inputs[2..][1..] == inputs[3..];
    }
    assert Drive(s3, inputs[3..], env) == Drive(s4, [], env) by {
      EmptyLineEndsBlock(s3, blankLine);
      assert inputs[3..][1..] == [];
    }
  }

  // The executing half of `SingleBlockSession`: a ready one-line block and no more input.
  lemma ReadyBlockRuns(instruction: string, constraint: string, env: Interpreter.Env)
    ensures var result := Interpreter.Execute(Interpreter.NaturalProgram([instruction], [constraint]), [], env);
            Drive(Session(ReadyToExecute, [instruction], [constraint], []), [], env)
            == (if result.Executed? then ["# " + instruction] + result.newCode else [])
  {
    var s4 := Session(ReadyToExecute, [instruction], [constraint], []);
    var s5 := ExecuteBlock(s4, env).0;
    assert Drive(s4, [], env) == Drive(s5, [], env);
    assert Drive(s5, [], env) == Drive(Restart(s5), [], env);
    assert Drive(Restart(s5), [], env) == s5.code;
    match Interpreter.Execute(Interpreter.NaturalProgram([instruction], [constraint]), [], env)
    case Executed(newCode, output) =>
      var comments := Interpreter.Commented([instruction]);
      assert s5.code == [] + comments + newCode;
      assert [] + comments == comments;
      assert comments == ["# " + instruction];
    case NaturalInterpreterError =>
      assert s5.code == [];
  }
}
