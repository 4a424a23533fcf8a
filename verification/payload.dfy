/**
 * The scripts a Python task generates as its implementation: file mode, which shells out to run
 * a script file with parameters, and closure mode, which unpickles a serialized closure and
 * calls it. Each script is a list of lines joined with "\n".
 */
module Payload {
  import opened Text

  const ImportSubprocess := "import subprocess"
  const Separator := "print('-' * 10)"
  const EchoResult := "print(result.decode('ascii'))"
  const Finished := "print('Finished')"

  /**
   * The shell command the file-mode script runs: parameters joined by single spaces, unescaped.
   * It is a single line exactly when the file name and the parameter text are.
   */
  function Command(taskFile: string, parameters: seq<string>): (command: string)
    ensures SingleLine(command) <==> SingleLine(taskFile) && SingleLine(Join(' ', parameters))
  {
    ConcatThreeSingleLine("python ", taskFile, " ");
    ConcatSingleLine("python " + taskFile + " ", Join(' ', parameters));
    "python " + taskFile + " " + Join(' ', parameters)
  }

  /**
   * The line that announces which file runs with which parameters. It is a single line exactly
   * when the file name and the parameter text are.
   */
  function RunningLine(taskFile: string, parameters: seq<string>): (line: string)
    ensures SingleLine(line) <==> SingleLine(taskFile) && SingleLine(Join(' ', parameters))
  {
    ConcatThreeSingleLine("print('Running ", taskFile, " with ");
    ConcatThreeSingleLine("print('Running " + taskFile + " with ", Join(' ', parameters),
                          " as parameters...')");
    "print('Running " + taskFile + " with " + Join(' ', parameters) + " as parameters...')"
  }

  /**
   * The line that runs the command in a subprocess and keeps its stripped output. It is a single
   * line exactly when the file name and the parameter text are.
   */
  function InvocationLine(taskFile: string, parameters: seq<string>): (line: string)
    ensures SingleLine(line) <==> SingleLine(taskFile) && SingleLine(Join(' ', parameters))
  {
    ConcatThreeSingleLine("result = subprocess.check_output('", Command(taskFile, parameters),
                          "', shell=True).strip()");
    "result = subprocess.check_output('" + Command(taskFile, parameters) + "', shell=True).strip()"
  }

  /**
   * The lines of the file-mode script; the result is echoed between separators on request. The
   * script opens with the import and closes with `Finished`, and every line is a single line
   * exactly when the file name and the parameter text are.
   */
  function FileModeLines(taskFile: string, parameters: seq<string>, display: bool): (lines: seq<string>)
    ensures |lines| == if display then 7 else 4
    ensures lines[0] == ImportSubprocess && lines[|lines| - 1] == Finished
    ensures (forall i :: 0 <= i < |lines| ==> SingleLine(lines[i]))
            <==> SingleLine(taskFile) && SingleLine(Join(' ', parameters))
  {
    FixedLinesSingleLine();
    var lines := [ImportSubprocess, RunningLine(taskFile, parameters), InvocationLine(taskFile, parameters)]
                 + (if display then [Separator, EchoResult, Separator] else [])
                 + [Finished];
    assert (forall i :: 0 <= i < |lines| ==> SingleLine(lines[i]))
           <==> SingleLine(lines[1]) && SingleLine(lines[2]);
    lines
  }

  /**
   * The file-mode script text. Splitting it at newlines gives back exactly its lines if and
   * only if neither the file name nor any parameter contains a newline: otherwise embedded text
   * breaks the structure of the generated program.
   */
  function FileModeScript(taskFile: string, parameters: seq<string>, display: bool): (script: string)
    ensures Split('\n', script) == FileModeLines(taskFile, parameters, display)
            <==> SingleLine(taskFile) && forall i :: 0 <= i < |parameters| ==> SingleLine(parameters[i])
  {
    SplitJoin('\n', FileModeLines(taskFile, parameters, display));
    ParametersSingleLine(parameters);
    Join('\n', FileModeLines(taskFile, parameters, display))
  }

  /**
   * The lines of the closure-mode script around the rendered base64 payload literal: four lines,
   * all of them single lines exactly when the payload is.
   */
  function ClosureModeLines(payload: string): (lines: seq<string>)
    ensures |lines| == 4
    ensures (forall i :: 0 <= i < |lines| ==> SingleLine(lines[i])) <==> SingleLine(payload)
  {
    ConcatThreeSingleLine("result = pickle.loads(codecs.decode(", payload, ", \"base64\"))()");
    ClosureFixedLinesSingleLine();
    var lines := ["import pickle",
                  "import codecs",
                  "result = pickle.loads(codecs.decode(" + payload + ", \"base64\"))()",
                  "print('result: ', result)"];
    assert (forall i :: 0 <= i < |lines| ==> SingleLine(lines[i])) <==> SingleLine(lines[2]);
    lines
  }

  /**
   * The closure-mode script text. Splitting it at newlines gives back exactly its four lines if
   * and only if the rendered payload contains no newline.
   */
  function ClosureModeScript(payload: string): (script: string)
    ensures Split('\n', script) == ClosureModeLines(payload) <==> SingleLine(payload)
  {
    SplitJoin('\n', ClosureModeLines(payload));
    Join('\n', ClosureModeLines(payload))
  }

  /** The command joins file and parameters with single spaces: `python f a b` for `["a", "b"]`. */
  lemma CommandWords(taskFile: string, a: string, b: string)
    ensures Command(taskFile, [a, b]) == "python " + taskFile + " " + a + " " + b
    ensures Command(taskFile, []) == "python " + taskFile + " "
  {
    assert [a, b][1..] == [b];
    assert Join(' ', [a, b]) == a + " " + b;
  }

  /**
   * The script starts with the import, the announcement and the invocation line, verbatim and in
   * this order, followed by the remaining lines.
   */
  lemma FileModeInvocation(taskFile: string, parameters: seq<string>, display: bool)
    ensures FileModeScript(taskFile, parameters, display) ==
              ImportSubprocess + "\n" + RunningLine(taskFile, parameters) + "\n"
              + InvocationLine(taskFile, parameters) + "\n"
              + Join('\n', FileModeLines(taskFile, parameters, display)[3..])
  {
    var lines := FileModeLines(taskFile, parameters, display);
    assert lines == [lines[0], lines[1], lines[2]] + lines[3..];
    JoinThree('\n', lines[0], lines[1], lines[2], lines[3..]);
  }

  /** The file-mode script written out as the concatenation that builds it, piece by piece. */
  lemma FileModeScriptText(taskFile: string, parameters: seq<string>, display: bool)
    ensures display ==>
              (FileModeScript(taskFile, parameters, display) ==
                 ImportSubprocess + "\n" + RunningLine(taskFile, parameters) + "\n"
                 + InvocationLine(taskFile, parameters) + "\n"
                 + Separator + "\n" + EchoResult + "\n" + Separator + "\n" + Finished)
    ensures !display ==>
              (FileModeScript(taskFile, parameters, display) ==
                 ImportSubprocess + "\n" + RunningLine(taskFile, parameters) + "\n"
                 + InvocationLine(taskFile, parameters) + "\n" + Finished)
  {
    var running, invocation := RunningLine(taskFile, parameters), InvocationLine(taskFile, parameters);
    var lines := FileModeLines(taskFile, parameters, display);
    if display {
      assert lines == [ImportSubprocess, running, invocation, Separator, EchoResult, Separator, Finished];
      JoinSeven('\n', ImportSubprocess, running, invocation, Separator, EchoResult, Separator, Finished);
    } else {
      assert lines == [ImportSubprocess, running, invocation, Finished];
      JoinFour('\n', ImportSubprocess, running, invocation, Finished);
    }
  }

  /** The closure-mode script written out as the concatenation that builds it, piece by piece. */
  lemma ClosureModeScriptText(payload: string)
    ensures ClosureModeScript(payload) ==
              "import pickle" + "\n" + "import codecs" + "\n"
              + ("result = pickle.loads(codecs.decode(" + payload + ", \"base64\"))()") + "\n"
              + "print('result: ', result)"
  {
    JoinFour('\n', "import pickle", "import codecs",
             "result = pickle.loads(codecs.decode(" + payload + ", \"base64\"))()",
             "print('result: ', result)");
  }

  /** The result is echoed, between two separator lines, exactly when display is requested. */
  lemma FileModeDisplay(taskFile: string, parameters: seq<string>, display: bool)
    ensures EchoResult in FileModeLines(taskFile, parameters, display) <==> display
    ensures Separator in FileModeLines(taskFile, parameters, display) <==> display
  {
    var running := RunningLine(taskFile, parameters);
    var invocation := InvocationLine(taskFile, parameters);
    assert running[7] == 'R' && invocation[0] == 'r';
    assert EchoResult[6] == 'r' && Separator[7] == '-';
    if display {
      assert FileModeLines(taskFile, parameters, display)[4] == EchoResult;
      assert FileModeLines(taskFile, parameters, display)[3] == Separator;
    } else {
      assert FileModeLines(taskFile, parameters, display)
             == [ImportSubprocess, running, invocation, Finished];
    }
  }

  /** No newline in a text. */
  predicate SingleLine(s: string)
  {
    '\n' !in s
  }

  /** The parameter text is a single line exactly when every parameter is. */
  lemma ParametersSingleLine(parameters: seq<string>)
    ensures SingleLine(Join(' ', parameters))
            <==> forall i :: 0 <= i < |parameters| ==> SingleLine(parameters[i])
  {
    CharInJoin('\n', ' ', parameters);
  }

  /** A concatenation is a single line exactly when both halves are. */
  lemma ConcatSingleLine(a: string, b: string)
    ensures SingleLine(a + b) <==> SingleLine(a) && SingleLine(b)
  {
    if '\n' in a + b {
      var i :| 0 <= i < |a + b| && (a + b)[i] == '\n';
      if i >= |a| {
        assert b[i - |a|] == '\n';
      }
    }
  }

  /** A concatenation of three texts is a single line exactly when all three are. */
  lemma ConcatThreeSingleLine(a: string, b: string, c: string)
    ensures SingleLine(a + b + c) <==> SingleLine(a) && SingleLine(b) && SingleLine(c)
  {
    ConcatSingleLine(a, b);
    ConcatSingleLine(a + b, c);
  }

  /** The file-mode lines that embed nothing are single lines. */
  lemma FixedLinesSingleLine()
    ensures SingleLine(ImportSubprocess) && SingleLine(Separator)
    ensures SingleLine(EchoResult) && SingleLine(Finished)
  {
  }

  /** The closure-mode lines that embed nothing are single lines. */
  lemma ClosureFixedLinesSingleLine()
    ensures SingleLine("import pickle") && SingleLine("import codecs")
    ensures SingleLine("print('result: ', result)")
  {
  }
}
