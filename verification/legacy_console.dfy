/** The read-eval-print loop of `__main__.py`, the older variant of the console: no
    raw-code mode, and a malformed line is reported without changing anything. */
module LegacyConsole {
  import opened Text
  import Interpreter
  import Console

  const HelpKeyword: string := "help"
  const ExitKeyword: string := "exit"
  const ConstraintKeyword: string := "finally:"
  const RestartKeyword: string := "restart"
  const Keywords: seq<string> := [HelpKeyword, ExitKeyword, ConstraintKeyword, RestartKeyword]

  const ParseErrorMessage: string := "You did not format your instruction correctly. Try again..."

  datatype State =
    | ReadingInstruction
    | ReadingConstraint
    | RestartingInstructionReading
    | ReadyToExecute

  /** The states in which the loop reads a line; the other two act without input. */
  predicate IsReading(state: State)
  {
    state.ReadingInstruction? || state.ReadingConstraint?
  }

  /** How many automatic iterations a state is away from reading input. */
  function Rank(state: State): nat
  {
    match state
    case ReadyToExecute => 2
    case RestartingInstructionReading => 1
    case _ => 0
  }

  /** The variables of `repl`: the state and its three line buffers. */
  datatype Session = Session(state: State, instruction: seq<string>, constraint: seq<string>, code: seq<string>)

  /** What an iteration shows the user, and whether it ends the loop. */
  datatype Event =
    | Quiet
    | ShowHelp
    | ShowParseError(message: string)
    | ShowExecuted(newCode: seq<string>, output: string)
    | ShowBudgetError
    | Stop

  const Initial: Session := Session(ReadingInstruction, [], [], [])

  /** The engine is only reached with a non-empty block. */
  predicate Inv(s: Session)
  {
    s.state == ReadyToExecute ==> s.instruction != [] || s.constraint != []
  }

  /** The `restarting_instruction_reading` iteration. */
  function Restart(s: Session): (r: Session)
    ensures r.state == ReadingInstruction && r.instruction == [] && r.constraint == []
    ensures r.code == s.code && Inv(r)
  {
    Session(ReadingInstruction, [], [], s.code)
  }

  /** The `ready_to_execute` iteration: run the engine on the block; on success record
      the instruction as comments followed by the accepted code. */
  function ExecuteBlock(s: Session, env: Interpreter.Env): (r: (Session, Event))
    ensures r.0.state == RestartingInstructionReading
    ensures s.code <= r.0.code
  {
    var program := Interpreter.NaturalProgram(s.instruction, s.constraint);
    match Interpreter.Execute(program, s.code, env)
    case Executed(newCode, output) =>
      var code := s.code + Interpreter.Commented(program.instruction) + newCode;
      (s.(state := RestartingInstructionReading, code := code), ShowExecuted(newCode, output))
    case NaturalInterpreterError =>
      (s.(state := RestartingInstructionReading), ShowBudgetError)
  }

  /** An input-reading iteration, given the raw line the user typed.  The line is
      stripped first; reading never touches the code, and a malformed line leaves the
      whole session as it was. */
  function ReadLine(s: Session, raw: string): (r: (Session, Event))
    requires IsReading(s.state)
    ensures r.0.code == s.code
    ensures r.0.instruction == s.instruction || r.0.instruction == s.instruction + [Strip(raw)]
    ensures r.0.constraint == s.constraint || r.0.constraint == s.constraint + [Strip(raw)]
    ensures r.1.ShowParseError? ==> r.0 == s
    ensures r.0.state == ReadyToExecute ==> Strip(raw) == "" && (s.instruction != [] || s.constraint != [])
    ensures Inv(s) ==> Inv(r.0)
  {
    var userInput := Strip(raw);
    if userInput in Keywords then
      if userInput == HelpKeyword then (s, ShowHelp)
      else if userInput == ExitKeyword then (s, Stop)
      else if userInput == ConstraintKeyword then
        if s.state != ReadingInstruction then (s, ShowParseError(ParseErrorMessage))
        else (s.(state := ReadingConstraint), Quiet)
      else // the restart keyword
        (s.(state := RestartingInstructionReading), Quiet)
    else if |userInput| == 0 then
      if |s.instruction| == 0 && |s.constraint| == 0 then (s.(state := RestartingInstructionReading), Quiet)
      else (s.(state := ReadyToExecute), Quiet)
    else if s.state == ReadingInstruction then (s.(instruction := s.instruction + [userInput]), Quiet)
    else if s.state == ReadingConstraint then (s.(constraint := s.constraint + [userInput]), Quiet)
    else (s, ShowParseError(ParseErrorMessage))
  }

  /** The whole loop as a value: the code accumulated when the loop ends after consuming
      `inputs` from session `s`.  Running out of input is end-of-file.  Code only grows. */
  function Drive(s: Session, inputs: seq<string>, env: Interpreter.Env): (code: seq<string>)
    ensures s.code <= code
    decreases |inputs|, Rank(s.state)
  {
    if s.state == RestartingInstructionReading then Drive(Restart(s), inputs, env)
    else if s.state == ReadyToExecute then Drive(ExecuteBlock(s, env).0, inputs, env)
    else if |inputs| == 0 then s.code
    else
      var (next, event) := ReadLine(s, inputs[0]);
      if event.Stop? then next.code else Drive(next, inputs[1..], env)
  }

  /** `repl`: the loop over the input lines, with the engine called on every block.  The
      source returns nothing; the final code buffer is returned here so that the result
      of a session can be stated. */
  method Repl(inputs: seq<string>, env: Interpreter.Env) returns (currentPythonCode: seq<string>)
    ensures currentPythonCode == Drive(Initial, inputs, env)
  {
    var shell := new Interpreter.PythonShell(env.run);
    var keepInterpreting := true;
    var currentInstruction: seq<string> := [];
    var currentConstraint: seq<string> := [];
    currentPythonCode := [];
    var state := ReadingInstruction;
    var next := 0;
    while keepInterpreting
      invariant 0 <= next <= |inputs|
      invariant keepInterpreting ==>
                  Drive(Session(state, currentInstruction, currentConstraint, currentPythonCode), inputs[next..], env)
                  == Drive(Initial, inputs, env)
      invariant !keepInterpreting ==> currentPythonCode == Drive(Initial, inputs, env)
      decreases |inputs| - next + (if keepInterpreting then 1 else 0), Rank(state)
    {
      if state == RestartingInstructionReading {
        currentInstruction := [];
        currentConstraint := [];
        state := ReadingInstruction;
      } else if state == ReadyToExecute {
        var program := Interpreter.NaturalProgram(currentInstruction, currentConstraint);
        var result, _ := Interpreter.ExecuteNaturalProgram(program, currentPythonCode, env, shell);
        if result.Executed? {
          currentPythonCode := currentPythonCode + Interpreter.Commented(program.instruction) + result.newCode;
        }
        state := RestartingInstructionReading;
      } else if next == |inputs| {
        // end of input
        keepInterpreting := false;
      } else {
        var userInput := Strip(inputs[next]);
        assert inputs[next..][1..] == inputs[next + 1..];
        next := next + 1;
        if userInput in Keywords {
          if userInput == HelpKeyword {
          } else if userInput == ExitKeyword {
            keepInterpreting := false;
          } else if userInput == ConstraintKeyword {
            // in the constraint state this is a parse error, which changes nothing
            if state == ReadingInstruction {
              state := ReadingConstraint;
            }
          } else {
            state := RestartingInstructionReading;
          }
        } else if |userInput| == 0 {
          if |currentInstruction| == 0 && |currentConstraint| == 0 {
            state := RestartingInstructionReading;
          } else {
            state := ReadyToExecute;
          }
        } else if state == ReadingInstruction {
          currentInstruction := currentInstruction + [userInput];
        } else if state == ReadingConstraint {
          currentConstraint := currentConstraint + [userInput];
        }
      }
    }
  }

  /** `restart` leads to a restart, and the automatic iteration after it empties both
      buffers, reads instructions again and keeps the code. */
  lemma RestartKeywordResets(s: Session, raw: string)
    requires IsReading(s.state) && Strip(raw) == RestartKeyword
    ensures var (next, event) := ReadLine(s, raw);
            && next == s.(state := RestartingInstructionReading) && event == Quiet
            && Restart(next) == Session(ReadingInstruction, [], [], s.code)
  {
  }

  /** `finally:` starts the constraint while reading the instruction; while reading the
      constraint it is a parse error that changes neither the state nor any buffer. */
  lemma ConstraintKeywordLegality(s: Session, raw: string)
    requires IsReading(s.state) && Strip(raw) == ConstraintKeyword
    ensures var (next, event) := ReadLine(s, raw);
            && (s.state == ReadingInstruction ==> next == s.(state := ReadingConstraint) && event == Quiet)
            && (s.state == ReadingConstraint ==> next == s && event == ShowParseError(ParseErrorMessage))
  {
  }

  /** An empty line ends the block: an empty block restarts, any other is executed. */
  lemma EmptyLineEndsBlock(s: Session, raw: string)
    requires IsReading(s.state) && Strip(raw) == ""
    ensures var (next, event) := ReadLine(s, raw);
            && event == Quiet
            && next.instruction == s.instruction && next.constraint == s.constraint && next.code == s.code
            && (next.state == RestartingInstructionReading <==> s.instruction == [] && s.constraint == [])
            && (next.state == ReadyToExecute <==> s.instruction != [] || s.constraint != [])
  {
  }

  /** A non-empty line that is not a keyword (`python` included, which is no keyword
      here) lands in the buffer the state selects, and nothing else changes; the
      fallback parse error never happens. */
  lemma LineLandsInOneBuffer(s: Session, raw: string)
    requires IsReading(s.state)
    requires Strip(raw) != "" && Strip(raw) !in Keywords
    ensures var (next, event) := ReadLine(s, raw);
            var line := Strip(raw);
            && event == Quiet && next.state == s.state && next.code == s.code
            && next.instruction == (if s.state == ReadingInstruction then s.instruction + [line] else s.instruction)
            && next.constraint == (if s.state == ReadingConstraint then s.constraint + [line] else s.constraint)
  {
  }

  /** `python` is ordinary text here: it is appended to the current buffer. */
  lemma PythonIsOrdinaryText(s: Session, raw: string)
    requires IsReading(s.state) && Strip(raw) == "python"
    ensures var next := ReadLine(s, raw).0;
            && next.state == s.state
            && next.instruction == (if s.state == ReadingInstruction then s.instruction + ["python"] else s.instruction)
            && next.constraint == (if s.state == ReadingConstraint then s.constraint + ["python"] else s.constraint)
  {
    LineLandsInOneBuffer(s, raw);
  }

  /** `help` changes nothing; `exit` changes nothing and stops the loop. */
  lemma HelpAndExitChangeNothing(s: Session, raw: string)
    requires IsReading(s.state)
    ensures Strip(raw) == HelpKeyword ==> ReadLine(s, raw) == (s, ShowHelp)
    ensures Strip(raw) == ExitKeyword ==> ReadLine(s, raw) == (s, Stop)
  {
  }

  /** Input is stripped before it is matched: a line and its stripped form act alike. */
  lemma InputStrippedBeforeMatching(s: Session, raw: string)
    requires IsReading(s.state)
    ensures ReadLine(s, raw) == ReadLine(s, Strip(raw))
  {
    StripIdempotent(raw);
  }

  /** `exit` and end-of-input both end the session with the code accumulated so far,
      whatever input would have followed. */
  lemma ExitOrEndOfInputReturnsCode(s: Session, raw: string, rest: seq<string>, env: Interpreter.Env)
    requires IsReading(s.state)
    ensures Drive(s, [], env) == s.code
    ensures Strip(raw) == ExitKeyword ==> Drive(s, [raw] + rest, env) == s.code
  {
  }

  /** The execution iteration: on success the code grows by the commented instruction
      lines, then a candidate whose trial succeeded, then the constraint; on failure it
      is unchanged.  Either way the next state is a restart with the buffers untouched. */
  lemma ExecuteBlockAppendsAccepted(s: Session, env: Interpreter.Env)
    ensures var (next, event) := ExecuteBlock(s, env);
            var program := Interpreter.NaturalProgram(s.instruction, s.constraint);
            var candidates := Interpreter.CandidatesFor(program, s.code, env);
            && next.state == RestartingInstructionReading
            && next.instruction == s.instruction && next.constraint == s.constraint
            && (event.ShowBudgetError? ==> next.code == s.code)
            && (event.ShowExecuted? ==>
                  exists k ::
                    && 0 <= k < |candidates|
                    && Interpreter.Trial(candidates[k], program, s.code, env.run).Some?
                    && next.code == s.code + Interpreter.Commented(s.instruction) + (candidates[k] + s.constraint))
  {
    var program := Interpreter.NaturalProgram(s.instruction, s.constraint);
    var candidates := Interpreter.CandidatesFor(program, s.code, env);
    match Interpreter.Execute(program, s.code, env)
    case Executed(newCode, output) =>
      var next := s.(state := RestartingInstructionReading,
                     code := s.code + Interpreter.Commented(s.instruction) + newCode);
      assert ExecuteBlock(s, env) == (next, ShowExecuted(newCode, output));
      var k := Interpreter.AcceptedCandidate(program, s.code, env);
      assert && 0 <= k < |candidates|
             && Interpreter.Trial(candidates[k], program, s.code, env.run).Some?
             && next.code == s.code + Interpreter.Commented(s.instruction) + (candidates[k] + s.constraint);
    case NaturalInterpreterError =>
      assert ExecuteBlock(s, env) == (s.(state := RestartingInstructionReading), ShowBudgetError);
  }

  /** Every iteration keeps the session invariant, which holds initially. */
  lemma IterationsKeepInv(s: Session, env: Interpreter.Env)
    requires Inv(s)
    ensures Inv(Initial)
    ensures s.state == RestartingInstructionReading ==> Inv(Restart(s))
    ensures s.state == ReadyToExecute ==> Inv(ExecuteBlock(s, env).0)
  {
  }

  /** The code of a reachable session only ever grows by accepted blocks: whatever lines
      follow, the returned code is the session's code followed by blocks of the commented
      instruction, a candidate sampled for and run after exactly the code before it, and
      the constraint.  Unlike the newer console, no line is ever appended raw. */
  lemma SessionAppendsBlocks(s: Session, inputs: seq<string>, env: Interpreter.Env)
    requires Inv(s)
    ensures exists pieces: seq<Console.Piece> ::
              && Console.ValidPieces(s.code, pieces, env)
              && OnlyBlocks(pieces)
              && Drive(s, inputs, env) == s.code + Console.Concat(pieces)
  {
    var pieces := DrivePieces(s, inputs, env);
  }

  /** No raw-code line among the pieces. */
  predicate OnlyBlocks(pieces: seq<Console.Piece>)
  {
    forall i :: 0 <= i < |pieces| ==> pieces[i].AcceptedBlock?
  }

  // `SessionAppendsBlocks` with the blocks constructed.
  lemma {:induction false} DrivePieces(s: Session, inputs: seq<string>, env: Interpreter.Env)
    returns (pieces: seq<Console.Piece>)
    requires Inv(s)
    ensures Console.ValidPieces(s.code, pieces, env)
    ensures OnlyBlocks(pieces)
    ensures Drive(s, inputs, env) == s.code + Console.Concat(pieces)
    decreases |inputs|, Rank(s.state)
  {
    if s.state == RestartingInstructionReading {
      pieces := DrivePieces(Restart(s), inputs, env);
    } else if s.state == ReadyToExecute {
      var next := ExecuteBlock(s, env).0;
      IterationsKeepInv(s, env);
      var rest := DrivePieces(next, inputs, env);
      pieces := ExecutedPieces(s, env, rest);
    } else if |inputs| == 0 {
      pieces := [];
    } else {
      var (next, event) := ReadLine(s, inputs[0]);
      if event.Stop? {
        pieces := [];
      } else {
        pieces := DrivePieces(next, inputs[1..], env);
      }
    }
  }

  // The execution iteration adds at most one accepted block in front of what follows.
  lemma ExecutedPieces(s: Session, env: Interpreter.Env, rest: seq<Console.Piece>)
    returns (pieces: seq<Console.Piece>)
    requires s.state == ReadyToExecute && Inv(s)
    requires Console.ValidPieces(ExecuteBlock(s, env).0.code, rest, env)
    requires OnlyBlocks(rest)
    ensures Console.ValidPieces(s.code, pieces, env)
    ensures OnlyBlocks(pieces)
    ensures ExecuteBlock(s, env).0.code + Console.Concat(rest) == s.code + Console.Concat(pieces)
  {
    var next := ExecuteBlock(s, env).0;
    var program := Interpreter.NaturalProgram(s.instruction, s.constraint);
    match Interpreter.Execute(program, s.code, env)
    case NaturalInterpreterError =>
      pieces := rest;
    case Executed(newCode, output) =>
      var k := Interpreter.AcceptedCandidate(program, s.code, env);
      var p := Console.AcceptedBlock(program, Interpreter.CandidatesFor(program, s.code, env)[k]);
      AppendAssociates(s.code, Interpreter.Commented(s.instruction), newCode);
      assert next.code == s.code + Console.PieceLines(p);
      var candidates := Interpreter.CandidatesFor(program, s.code, env);
      assert Console.ValidPiece(p, s.code, env) by {
        assert candidates[k] in candidates;
      }
      pieces := [p] + rest;
      assert pieces[1..] == rest;
      AppendAssociates(s.code, Console.PieceLines(p), Console.Concat(rest));
  }

  /** The same session seen by the newer console. */
  function AsConsoleSession(s: Session): Console.Session
  {
    var state := match s.state
      case ReadingInstruction => Console.ReadingInstruction
      case ReadingConstraint => Console.ReadingConstraint
      case RestartingInstructionReading => Console.RestartingInstructionReading
      case ReadyToExecute => Console.ReadyToExecute;
    Console.Session(state, s.instruction, s.constraint, s.code)
  }

  /** The two consoles differ on exactly two kinds of line.  A `finally:` while reading
      the constraint changes nothing here but restarts in the newer console, and
      `python` is text here but a keyword there.  On every other line they make the
      same transition. */
  lemma ComparedWithConsole(s: Session, raw: string)
    requires IsReading(s.state)
    ensures Strip(raw) == ConstraintKeyword && s.state == ReadingConstraint ==>
              && ReadLine(s, raw).0 == s
              && Console.ReadLine(AsConsoleSession(s), raw).0
                 == AsConsoleSession(s).(state := Console.RestartingInstructionReading)
    ensures Strip(raw) == Console.PythonKeyword ==>
              && ReadLine(s, raw).0.state == s.state
              && Console.ReadLine(AsConsoleSession(s), raw).0.state != AsConsoleSession(s).state
    ensures !(Strip(raw) == ConstraintKeyword && s.state == ReadingConstraint) && Strip(raw) != Console.PythonKeyword ==>
              AsConsoleSession(ReadLine(s, raw).0) == Console.ReadLine(AsConsoleSession(s), raw).0
  {
  }
}
