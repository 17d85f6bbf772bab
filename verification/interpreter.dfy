/** The trial engine: prompt assembly, output diffing and the first-success search over
    the sampled candidates.  Running Python and calling the completion provider are
    oracles carried in an `Env`. */
module Interpreter {
  import opened Wrappers
  import opened Text
  import LanguageModelApi

  /** An instruction (natural-language lines) and a constraint (Python lines that must
      run successfully after the instruction's code). */
  datatype NaturalProgram = NaturalProgram(instruction: seq<string>, constraint: seq<string>)

  /** What `execute_natural_program` produces: the accepted code and its new output, or
      the `NaturalInterpreterError` raised when no candidate runs. */
  datatype Execution =
    | Executed(newCode: seq<string>, output: string)
    | NaturalInterpreterError

  /** The collaborators of the engine.
      `run(source)` is `get_code_output`: the captured stdout, or `None` when the Python
      process exits with a non-zero status (`PythonInterpreterError`).
      `sample(prompt, n)` is the provider's `Completion.create`: the texts of its choices,
      in order.  `completionN` is the requested sample count. */
  datatype Env = Env(
    run: string -> Option<string>,
    sample: (string, int) -> seq<string>,
    completionN: int)

  /** The lines put in front of the very first prompt of a session. */
  const ScriptHeader: seq<string> := [HeaderComment, "import argparse", ""]

  // "# Let's write a Python script to solve the problem", spelt in pieces so that facts
  // about its characters are checked a few at a time.
  const HeaderComment: string := "# Let's " + "write a " + "Python s" + "cript to" + " solve t" + "he problem"

  /** `['# '+l for l in lines]`. */
  function Commented(lines: seq<string>): (r: seq<string>)
    ensures |r| == |lines|
    ensures forall i :: 0 <= i < |r| ==> |r[i]| == |lines[i]| + 2 && r[i][..2] == "# " && r[i][2..] == lines[i]
  {
    seq(|lines|, i requires 0 <= i < |lines| => "# " + lines[i])
  }

  /** The lines `get_prompt` joins: the header (first instruction only), the code so far,
      then every instruction line as a comment. */
  function PromptLines(currentCode: seq<string>, program: NaturalProgram): seq<string>
  {
    var injected := if |currentCode| == 0 then ScriptHeader else [];
    injected + currentCode + Commented(program.instruction)
  }

  /** `get_prompt`. */
  function GetPrompt(currentCode: seq<string>, program: NaturalProgram): (r: string)
    ensures var before := if currentCode == [] then ScriptHeader else currentCode;
            && (program.instruction == [] ==> r == Join(before))
            && (program.instruction != [] ==> r == Join(before) + "\n" + Join(Commented(program.instruction)))
  {
    var before := if currentCode == [] then ScriptHeader else currentCode;
    assert PromptLines(currentCode, program) == before + Commented(program.instruction);
    if program.instruction != [] then
      JoinAppend(before, Commented(program.instruction));
      Join(PromptLines(currentCode, program))
    else
      assert PromptLines(currentCode, program) == before;
      Join(PromptLines(currentCode, program))
  }

  /** `new_stdout[n:]` in Python: empty when `n` is past the end. */
  function DropPrefix(s: string, n: nat): (r: string)
    ensures n <= |s| ==> s[..n] + r == s
    ensures n > |s| ==> r == []
  {
    if n <= |s| then s[n..] else []
  }

  /** `get_new_code_output`: runs the code so far, then the code so far followed by
      `newCode`, and returns the second output with as many leading characters dropped
      as the first output has.  It fails when either run fails. */
  function GetNewCodeOutput(newCode: seq<string>, currentCode: seq<string>,
                            run: string -> Option<string>): (r: Option<string>)
    ensures r.Some? <==> run(Join(currentCode)).Some? && run(Join(currentCode + newCode)).Some?
    ensures r.Some? ==>
              var baseline, full := run(Join(currentCode)).value, run(Join(currentCode + newCode)).value;
              && (baseline <= full ==> baseline + r.value == full)
              && |r.value| == (if |baseline| <= |full| then |full| - |baseline| else 0)
              && EndsWith(full, r.value)
  {
    match run(Join(currentCode))
    case None => None
    case Some(currentStdout) =>
      match run(Join(currentCode + newCode))
      case None => None
      case Some(newStdout) => Some(DropPrefix(newStdout, |currentStdout|))
  }

  /** One trial: the candidate followed by the constraint, after the code so far. */
  function Trial(completion: seq<string>, program: NaturalProgram, currentCode: seq<string>,
                 run: string -> Option<string>): (r: Option<string>)
    ensures r.Some? <==>
              run(Join(currentCode)).Some? && run(Join(currentCode + (completion + program.constraint))).Some?
    ensures r.Some? ==> EndsWith(run(Join(currentCode + (completion + program.constraint))).value, r.value)
  {
    GetNewCodeOutput(completion + program.constraint, currentCode, run)
  }

  /** The reference for the search loop: the first completion, in list order, whose
      trial succeeds, or `NaturalInterpreterError` when none does. */
  function FirstSuccess(completions: seq<seq<string>>, program: NaturalProgram,
                        currentCode: seq<string>, run: string -> Option<string>): (r: Execution)
    ensures r.NaturalInterpreterError? <==>
              forall k :: 0 <= k < |completions| ==> Trial(completions[k], program, currentCode, run).None?
    ensures r.Executed? ==> EndsWith(r.newCode, program.constraint)
    decreases |completions|
  {
    if completions == [] then NaturalInterpreterError
    else
      match Trial(completions[0], program, currentCode, run)
      case Some(output) => Executed(completions[0] + program.constraint, output)
      case None =>
        var r := FirstSuccess(completions[1..], program, currentCode, run);
        assert forall k :: 1 <= k < |completions| ==> completions[k] == completions[1..][k - 1];
        r
  }

  /** The candidates sampled for a program: the prompt built from the code so far and
      the instruction, sent with the configured sample count, then line-filtered. */
  function CandidatesFor(program: NaturalProgram, currentCode: seq<string>, env: Env): (r: seq<seq<string>>)
    ensures |r| == |env.sample(GetPrompt(currentCode, program), env.completionN)|
    ensures forall i, j :: 0 <= i < |r| && 0 <= j < |r[i]| ==> LanguageModelApi.Kept(r[i][j]) && '\n' !in r[i][j]
  {
    LanguageModelApi.Candidates(env.sample(GetPrompt(currentCode, program), env.completionN))
  }

  /** `execute_natural_program`, as a value. */
  function Execute(program: NaturalProgram, currentCode: seq<string>, env: Env): (r: Execution)
    ensures var candidates := CandidatesFor(program, currentCode, env);
            && (r.NaturalInterpreterError? <==>
                  forall k :: 0 <= k < |candidates| ==> Trial(candidates[k], program, currentCode, env.run).None?)
            && (r.Executed? ==> EndsWith(r.newCode, program.constraint))
  {
    FirstSuccess(CandidatesFor(program, currentCode, env), program, currentCode, env.run)
  }

  /** The Python interpreter the engine spawns, `get_code_output` with its shell command
      fixed: `run` is what one run prints, or `None` on a non-zero exit status.  The ghost
      `log` records every source text run so far, in order. */
  class PythonShell {
    const run: string -> Option<string>
    ghost var log: seq<string>

    constructor(run: string -> Option<string>)
      ensures this.run == run && log == []
    {
      this.run := run;
      log := [];
    }

    /** `get_code_output`: one interpreter process on `source`. */
    method GetCodeOutput(source: string) returns (stdout: Option<string>)
      modifies this
      ensures stdout == run(source)
      ensures log == old(log) + [source]
    {
      stdout := run(source);
      log := log + [source];
    }
  }

  /** The sources one trial runs: the code so far, and, only when that run succeeds,
      the code so far followed by the new code. */
  function TrialSources(newCode: seq<string>, currentCode: seq<string>, run: string -> Option<string>): (r: seq<string>)
    ensures 1 <= |r| <= 2 && r[0] == Join(currentCode)
    ensures |r| == 2 <==> run(Join(currentCode)).Some?
    ensures |r| == 2 ==> r[1] == Join(currentCode + newCode)
  {
    if run(Join(currentCode)).Some? then [Join(currentCode), Join(currentCode + newCode)]
    else [Join(currentCode)]
  }

  /** The sources run by the trials of the first `n` completions, one after the other. */
  function SearchSources(completions: seq<seq<string>>, n: nat, program: NaturalProgram,
                         currentCode: seq<string>, run: string -> Option<string>): (r: seq<string>)
    requires n <= |completions|
    ensures n <= |r| <= 2 * n
  {
    if n == 0 then []
    else
      SearchSources(completions, n - 1, program, currentCode, run)
        + TrialSources(completions[n - 1] + program.constraint, currentCode, run)
  }

  /** What a search that ran `tried` trials of `completions` reports: every trial before
      the last one run failed; on success the last one run succeeded with the reported
      output and its completion, followed by the constraint, is the accepted code; on
      failure every completion was tried and every trial failed. */
  predicate SearchOutcome(completions: seq<seq<string>>, program: NaturalProgram, currentCode: seq<string>,
                          run: string -> Option<string>, result: Execution, tried: nat)
  {
    && tried <= |completions|
    && (forall j :: 0 <= j < tried - 1 ==> Trial(completions[j], program, currentCode, run).None?)
    && (result.Executed? ==>
          && tried >= 1
          && Trial(completions[tried - 1], program, currentCode, run) == Some(result.output)
          && result.newCode == completions[tried - 1] + program.constraint)
    && (result.NaturalInterpreterError? ==>
          && tried == |completions|
          && forall j :: 0 <= j < tried ==> Trial(completions[j], program, currentCode, run).None?)
  }

  /** `get_new_code_output` on the interpreter: the baseline run first, and the extended
      run only when the baseline succeeded. */
  method RunNewCode(shell: PythonShell, newCode: seq<string>, currentCode: seq<string>)
    returns (newDiff: Option<string>)
    modifies shell
    ensures newDiff == GetNewCodeOutput(newCode, currentCode, shell.run)
    ensures shell.log == old(shell.log) + TrialSources(newCode, currentCode, shell.run)
  {
    var currentStdout := shell.GetCodeOutput(Join(currentCode));
    if currentStdout.None? {
      return None;
    }
    var newStdout := shell.GetCodeOutput(Join(currentCode + newCode));
    if newStdout.None? {
      return None;
    }
    newDiff := Some(DropPrefix(newStdout.value, |currentStdout.value|));
  }

  /** The loop of `execute_natural_program`: tries the completions in order and returns
      at the first whose trial succeeds.  `tried` is how many trials were run, and the
      interpreter ran exactly the sources of those trials, so no completion after the
      accepted one was run. */
  method TryCompletions(completions: seq<seq<string>>, program: NaturalProgram,
                        currentCode: seq<string>, shell: PythonShell)
    returns (result: Execution, tried: nat)
    modifies shell
    ensures result == FirstSuccess(completions, program, currentCode, shell.run)
    ensures SearchOutcome(completions, program, currentCode, shell.run, result, tried)
    ensures shell.log == old(shell.log) + SearchSources(completions, tried, program, currentCode, shell.run)
  {
    for i := 0 to |completions|
      invariant forall j :: 0 <= j < i ==> Trial(completions[j], program, currentCode, shell.run).None?
      invariant FirstSuccess(completions[i..], program, currentCode, shell.run)
                == FirstSuccess(completions, program, currentCode, shell.run)
      invariant shell.log == old(shell.log) + SearchSources(completions, i, program, currentCode, shell.run)
    {
      var newCode := completions[i] + program.constraint;
      var output := RunNewCode(shell, newCode, currentCode);
      AppendAssociates(old(shell.log), SearchSources(completions, i, program, currentCode, shell.run),
                       TrialSources(newCode, currentCode, shell.run));
      assert output == Trial(completions[i], program, currentCode, shell.run);
      if output.Some? {
        assert completions[i..][0] == completions[i];
        assert FirstSuccess(completions[i..], program, currentCode, shell.run) == Executed(newCode, output.value);
        return Executed(newCode, output.value), i + 1;
      }
      assert Trial(completions[i], program, currentCode, shell.run).None?;
      assert completions[i..][1..] == completions[i + 1..];
    }
    return NaturalInterpreterError, |completions|;
  }

  /** `execute_natural_program`: builds the prompt, samples the candidates and tries
      them in order on the interpreter. */
  method ExecuteNaturalProgram(program: NaturalProgram, currentPythonCode: seq<string>, env: Env,
                               shell: PythonShell)
    returns (result: Execution, tried: nat)
    requires shell.run == env.run
    modifies shell
    ensures result == Execute(program, currentPythonCode, env)
    ensures var completions := CandidatesFor(program, currentPythonCode, env);
            && SearchOutcome(completions, program, currentPythonCode, env.run, result, tried)
            && shell.log == old(shell.log) + SearchSources(completions, tried, program, currentPythonCode, env.run)
  {
    var lmPrompt := GetPrompt(currentPythonCode, program);
    var completions := LanguageModelApi.Candidates(env.sample(lmPrompt, env.completionN));
    result, tried := TryCompletions(completions, program, currentPythonCode, shell);
  }

  /** The search accepts the first completion whose trial succeeds. */
  lemma {:induction false} FirstSuccessAcceptsFirst(completions: seq<seq<string>>, program: NaturalProgram,
                                                    currentCode: seq<string>, run: string -> Option<string>, k: nat)
    requires k < |completions|
    requires Trial(completions[k], program, currentCode, run).Some?
    requires forall j :: 0 <= j < k ==> Trial(completions[j], program, currentCode, run).None?
    ensures FirstSuccess(completions, program, currentCode, run)
            == Executed(completions[k] + program.constraint, Trial(completions[k], program, currentCode, run).value)
    decreases k
  {
    if k > 0 {
      assert Trial(completions[0], program, currentCode, run).None?;
      var rest := completions[1..];
      assert rest[k - 1] == completions[k];
      assert forall j :: 0 <= j < k - 1 ==> rest[j] == completions[j + 1];
      FirstSuccessAcceptsFirst(rest, program, currentCode, run, k - 1);
    }
  }

  /** Whatever the search accepts is a completion whose trial succeeded, followed by the
      constraint, and every completion before it failed. */
  lemma {:induction false} FirstSuccessSound(completions: seq<seq<string>>, program: NaturalProgram,
                                             currentCode: seq<string>, run: string -> Option<string>)
    ensures var r := FirstSuccess(completions, program, currentCode, run);
            r.Executed? ==>
              exists k ::
                && 0 <= k < |completions|
                && Trial(completions[k], program, currentCode, run) == Some(r.output)
                && r.newCode == completions[k] + program.constraint
                && forall j :: 0 <= j < k ==> Trial(completions[j], program, currentCode, run).None?
    decreases |completions|
  {
    if completions != [] && Trial(completions[0], program, currentCode, run).None? {
      var rest := completions[1..];
      FirstSuccessSound(rest, program, currentCode, run);
      var r := FirstSuccess(rest, program, currentCode, run);
      if r.Executed? {
        var k :| && 0 <= k < |rest|
                 && Trial(rest[k], program, currentCode, run) == Some(r.output)
                 && r.newCode == rest[k] + program.constraint
                 && forall j :: 0 <= j < k ==> Trial(rest[j], program, currentCode, run).None?;
        assert rest[k] == completions[k + 1];
        assert forall j :: 1 <= j < k + 1 ==> completions[j] == rest[j - 1];
        assert forall j :: 0 <= j < k + 1 ==> Trial(completions[j], program, currentCode, run).None?;
      }
    }
  }

  /** The position, among the sampled candidates, of the one an execution accepted. */
  lemma AcceptedCandidate(program: NaturalProgram, currentCode: seq<string>, env: Env) returns (k: nat)
    requires Execute(program, currentCode, env).Executed?
    ensures var candidates := CandidatesFor(program, currentCode, env);
            && k < |candidates|
            && Trial(candidates[k], program, currentCode, env.run).Some?
            && Execute(program, currentCode, env).newCode == candidates[k] + program.constraint
  {
    var candidates := CandidatesFor(program, currentCode, env);
    FirstSuccessSound(candidates, program, currentCode, env.run);
    var r := Execute(program, currentCode, env);
    k :| && 0 <= k < |candidates|
         && Trial(candidates[k], program, currentCode, env.run) == Some(r.output)
         && r.newCode == candidates[k] + program.constraint
         && forall j :: 0 <= j < k ==> Trial(candidates[j], program, currentCode, env.run).None?;
  }

  /** An accepted block ran in full: the code so far, the completion and the constraint
      together exit with status zero, and the reported output is the tail of that run's
      stdout. */
  lemma AcceptedBlockRan(program: NaturalProgram, currentCode: seq<string>, env: Env)
    ensures var r := Execute(program, currentCode, env);
            r.Executed? ==>
              && EndsWith(r.newCode, program.constraint)
              && env.run(Join(currentCode)).Some?
              && env.run(Join(currentCode + r.newCode)).Some?
              && EndsWith(env.run(Join(currentCode + r.newCode)).value, r.output)
  {
    FirstSuccessSound(CandidatesFor(program, currentCode, env), program, currentCode, env.run);
  }

  /** Read back line by line, a prompt is the header and the commented instruction when
      there is no code yet, and the code followed by the commented instruction otherwise.
      The constraint never appears. */
  lemma PromptLayout(currentCode: seq<string>, program: NaturalProgram)
    requires NoLineBreaks(currentCode) && NoLineBreaks(program.instruction)
    ensures currentCode == [] ==> Split(GetPrompt(currentCode, program)) == ScriptHeader + Commented(program.instruction)
    ensures currentCode != [] ==> Split(GetPrompt(currentCode, program)) == currentCode + Commented(program.instruction)
  {
    var lines := PromptLines(currentCode, program);
    var comments := Commented(program.instruction);
    CommentedKeepsNoLineBreaks(program.instruction);
    ScriptHeaderHasNoLineBreaks();
    if currentCode == [] {
      assert lines == ScriptHeader + comments;
    } else {
      assert lines == currentCode + comments;
    }
    SplitJoin(lines);
  }

  /** Commenting break-free lines keeps them break-free. */
  lemma CommentedKeepsNoLineBreaks(lines: seq<string>)
    requires NoLineBreaks(lines)
    ensures NoLineBreaks(Commented(lines))
  {
    var comments := Commented(lines);
    forall i | 0 <= i < |comments| ensures '\n' !in comments[i] {
      assert comments[i] == "# " + lines[i];
    }
  }

  /** Accepted code is break-free when the constraint is: candidate lines never hold a
      line break. */
  lemma AcceptedCodeHasNoLineBreaks(program: NaturalProgram, currentCode: seq<string>, env: Env)
    requires NoLineBreaks(program.constraint)
    requires Execute(program, currentCode, env).Executed?
    ensures NoLineBreaks(Execute(program, currentCode, env).newCode)
  {
    var k := AcceptedCandidate(program, currentCode, env);
    var candidate := CandidatesFor(program, currentCode, env)[k];
    var newCode := candidate + program.constraint;
    forall i | 0 <= i < |newCode| ensures '\n' !in newCode[i] {
      if i < |candidate| {
        assert newCode[i] == candidate[i];
      } else {
        assert newCode[i] == program.constraint[i - |candidate|];
      }
    }
  }

  lemma HeaderPiecesHaveNoLineBreaks()
    ensures '\n' !in "# Let's " && '\n' !in "write a " && '\n' !in "Python s"
    ensures '\n' !in "cript to" && '\n' !in " solve t" && '\n' !in "he problem"
    ensures '\n' !in "import argparse"
  {
  }

  lemma ScriptHeaderHasNoLineBreaks()
    ensures NoLineBreaks(ScriptHeader)
  {
    HeaderPiecesHaveNoLineBreaks();
  }

  /** The prompt does not depend on the constraint. */
  lemma PromptIgnoresConstraint(currentCode: seq<string>, instruction: seq<string>, c1: seq<string>, c2: seq<string>)
    ensures GetPrompt(currentCode, NaturalProgram(instruction, c1)) == GetPrompt(currentCode, NaturalProgram(instruction, c2))
  {
  }

  /** Nothing follows the last instruction comment: the completion continues right after it. */
  lemma PromptEndsWithLastInstruction(currentCode: seq<string>, program: NaturalProgram)
    requires program.instruction != []
    ensures exists before :: GetPrompt(currentCode, program)
                             == before + "\n# " + program.instruction[|program.instruction| - 1]
  {
    var n := |program.instruction|;
    var last := program.instruction[n - 1];
    var comments := Commented(program.instruction);
    var head := Join(if currentCode == [] then ScriptHeader else currentCode);
    assert comments[n - 1] == "# " + last;
    // the prompt is `head`, a line break, then the joined comments
    var before;
    if n == 1 {
      assert Join(comments) == "# " + last;
      before := head;
    } else {
      assert comments == comments[..n - 1] + [comments[n - 1]];
      JoinSnoc(comments[..n - 1], comments[n - 1]);
      before := head + "\n" + Join(comments[..n - 1]);
      AppendAssociates(head + "\n", Join(comments[..n - 1]), "\n" + comments[n - 1]);
      AppendAssociates(Join(comments[..n - 1]), "\n", comments[n - 1]);
    }
    assert GetPrompt(currentCode, program) == before + ("\n" + ("# " + last));
    AppendAssociates(before, "\n", "# " + last);
    AppendAssociates(before + "\n", "# ", last);
    AppendAssociates(before, "\n", "# ");
    assert "\n" + "# " == "\n# ";
    assert GetPrompt(currentCode, program) == before + "\n# " + last;
  }

}
