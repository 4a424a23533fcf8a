/**
 * The task descriptor: one schedulable unit of work, built up step by step by client code before
 * it is handed to the workflow layer. `Task` is the generic descriptor; its `Python` constructor
 * and the file-mode and closure-mode methods make up the Python flavour of it.
 */
module ProactiveTask {
  import opened Wrappers
  import opened OrderedDict
  import Lists
  import Text
  import Payload

  /** Collaborator values the descriptor only stores; their contents are not modelled. */
  type ScriptLanguage(==)
  type ForkEnvironment(==)
  type SelectionScript(==)
  type Script(==)     // pre, post and flow scripts
  type FlowBlock(==)

  /** The free-form description; a fresh task holds an empty list, written `EmptyDescription`. */
  datatype Description = EmptyDescription | Described(text: string)

  /** The local file system as seen by the file-reading operations: path to contents. */
  type FileSystem = map<string, string>

  /** The interpreter command a Python task records in its generic information. */
  const PythonCommandKey := "PYTHON_COMMAND"

  /** A snapshot of every field of a task. */
  datatype TaskState = TaskState(
    scriptLanguage: Option<ScriptLanguage>,
    forkEnvironment: Option<ForkEnvironment>,
    selectionScript: Option<SelectionScript>,
    taskName: string,
    implementation: string,
    implementationUrl: Option<string>,
    variables: Dict<string, string>,
    genericInformation: Dict<string, string>,
    inputFiles: seq<string>,
    outputFiles: seq<string>,
    dependencies: seq<Task>,
    description: Description,
    preScript: Option<Script>,
    postScript: Option<Script>,
    flowScript: Option<Script>,
    flowBlock: Option<FlowBlock>,
    preciousResult: bool)

  /**
   * The invariant every operation keeps: inline text and URL exclude each other, stored inline
   * text always starts with the newline that setting it prepends, and dict keys are unique.
   */
  predicate Wellformed(s: TaskState)
  {
    && (s.implementationUrl.Some? ==> s.implementation == "")
    && (s.implementation == "" || s.implementation[0] == '\n')
    && UniqueKeys(s.variables)
    && UniqueKeys(s.genericInformation)
  }

  /**
   * The state of a task just constructed with the given language and name: no implementation,
   * no URL, empty dicts and lists, no optional parts, result not precious.
   */
  function InitialState(scriptLanguage: Option<ScriptLanguage>, taskName: string): (s: TaskState)
    ensures Wellformed(s)
  {
    TaskState(scriptLanguage, None, None, taskName, "", None, [], [], [], [], [],
              EmptyDescription, None, None, None, None, false)
  }

  class Task {
    var scriptLanguage: Option<ScriptLanguage>
    var forkEnvironment: Option<ForkEnvironment>
    var selectionScript: Option<SelectionScript>
    var taskName: string
    var implementation: string
    var implementationUrl: Option<string>
    var variables: Dict<string, string>
    var genericInformation: Dict<string, string>
    var inputFiles: seq<string>
    var outputFiles: seq<string>
    var dependencies: seq<Task>
    var description: Description
    var preScript: Option<Script>
    var postScript: Option<Script>
    var flowScript: Option<Script>
    var flowBlock: Option<FlowBlock>
    var preciousResult: bool

    function State(): (s: TaskState)
      reads this
    {
      TaskState(scriptLanguage, forkEnvironment, selectionScript, taskName, implementation,
                implementationUrl, variables, genericInformation, inputFiles, outputFiles,
                dependencies, description, preScript, postScript, flowScript, flowBlock,
                preciousResult)
    }

    ghost predicate Valid()
      reads this
    {
      Wellformed(State())
    }

    /** A generic task: no implementation, empty collections, no optional parts. */
    constructor (scriptLanguage: Option<ScriptLanguage> := None, taskName: string := "")
      ensures State() == InitialState(scriptLanguage, taskName)
      ensures Valid()
    {
      this.scriptLanguage, forkEnvironment, selectionScript := scriptLanguage, None, None;
      this.taskName, implementation, implementationUrl := taskName, "", None;
      variables, genericInformation := [], [];
      inputFiles, outputFiles, dependencies := [], [], [];
      description := EmptyDescription;
      preScript, postScript, flowScript, flowBlock := None, None, None, None;
      preciousResult := false;
    }

    /** A Python task: a generic task that also records the interpreter command to use. */
    constructor Python(python: ScriptLanguage, taskName: string := "", defaultPython: string := "python3")
      ensures State() == InitialState(Some(python), taskName).(
                genericInformation := [(PythonCommandKey, defaultPython)])
      ensures Get(genericInformation, PythonCommandKey) == Some(defaultPython)
      ensures Valid()
    {
      this.scriptLanguage, forkEnvironment, selectionScript := Some(python), None, None;
      this.taskName, implementation, implementationUrl := taskName, "", None;
      variables, genericInformation := [], [];
      inputFiles, outputFiles, dependencies := [], [], [];
      description := EmptyDescription;
      preScript, postScript, flowScript, flowBlock := None, None, None, None;
      preciousResult := false;
      new;
      AddGenericInformation(PythonCommandKey, defaultPython);
    }

    // Presence checks: each optional part is present exactly when its getter does not give None.

    predicate HasForkEnvironment()
      reads this
      ensures HasForkEnvironment() <==> GetForkEnvironment() != None
    {
      forkEnvironment.Some?
    }

    predicate HasSelectionScript()
      reads this
      ensures HasSelectionScript() <==> GetSelectionScript() != None
    {
      selectionScript.Some?
    }

    predicate HasPreScript()
      reads this
      ensures HasPreScript() <==> GetPreScript() != None
    {
      preScript.Some?
    }

    predicate HasPostScript()
      reads this
      ensures HasPostScript() <==> GetPostScript() != None
    {
      postScript.Some?
    }

    predicate HasFlowScript()
      reads this
      ensures HasFlowScript() <==> GetFlowScript() != None
    {
      flowScript.Some?
    }

    predicate HasFlowBlock()
      reads this
      ensures HasFlowBlock() <==> GetFlowBlock() != None
    {
      flowBlock.Some?
    }

    /** `hasVariables`: true exactly when some key has a value. */
    predicate HasVariables()
      reads this
      ensures HasVariables() <==> exists k :: Get(variables, k).Some?
    {
      EmptyIffNoKey(variables);
      variables != []
    }

    // Getters: the current value of each field.

    function GetScriptLanguage(): (language: Option<ScriptLanguage>) reads this { scriptLanguage }
    function GetPreciousResult(): (precious: bool) reads this { preciousResult }
    function GetForkEnvironment(): (environment: Option<ForkEnvironment>) reads this { forkEnvironment }
    function GetSelectionScript(): (script: Option<SelectionScript>) reads this { selectionScript }
    function GetTaskName(): (name: string) reads this { taskName }
    function GetTaskImplementationFromUrl(): (url: Option<string>) reads this { implementationUrl }
    function GetTaskImplementation(): (text: string) reads this { implementation }
    function GetVariables(): (vars: Dict<string, string>) reads this { variables }
    function GetGenericInformation(): (info: Dict<string, string>) reads this { genericInformation }
    function GetInputFiles(): (files: seq<string>) reads this { inputFiles }
    function GetOutputFiles(): (files: seq<string>) reads this { outputFiles }
    function GetDependencies(): (tasks: seq<Task>) reads this { dependencies }
    function GetDescription(): (desc: Description) reads this { description }
    function GetPreScript(): (script: Option<Script>) reads this { preScript }
    function GetPostScript(): (script: Option<Script>) reads this { postScript }
    function GetFlowScript(): (script: Option<Script>) reads this { flowScript }
    function GetFlowBlock(): (block: Option<FlowBlock>) reads this { flowBlock }

    // Plain setters: each replaces one field and leaves the rest of the task as it was.

    method SetScriptLanguage(scriptLanguage: Option<ScriptLanguage>)
      requires Valid()
      modifies this
      ensures State() == old(State()).(scriptLanguage := scriptLanguage)
      ensures Valid()
    {
      this.scriptLanguage := scriptLanguage;
    }

    method SetPreciousResult(preciousResult: bool)
      requires Valid()
      modifies this
      ensures State() == old(State()).(preciousResult := preciousResult)
      ensures Valid()
    {
      this.preciousResult := preciousResult;
    }

    method SetForkEnvironment(forkEnvironment: Option<ForkEnvironment>)
      requires Valid()
      modifies this
      ensures State() == old(State()).(forkEnvironment := forkEnvironment)
      ensures HasForkEnvironment() <==> forkEnvironment.Some?
      ensures Valid()
    {
      this.forkEnvironment := forkEnvironment;
    }

    /**
     * `setRuntimeEnvironment`: the fork environment becomes the value the runtime-environment
     * builder created from the container options.
     */
    method SetRuntimeEnvironment(created: ForkEnvironment)
      requires Valid()
      modifies this
      ensures State() == old(State()).(forkEnvironment := Some(created))
      ensures HasForkEnvironment()
      ensures Valid()
    {
      forkEnvironment := Some(created);
    }

    method SetSelectionScript(selectionScript: Option<SelectionScript>)
      requires Valid()
      modifies this
      ensures State() == old(State()).(selectionScript := selectionScript)
      ensures HasSelectionScript() <==> selectionScript.Some?
      ensures Valid()
    {
      this.selectionScript := selectionScript;
    }

    method SetTaskName(taskName: string)
      requires Valid()
      modifies this
      ensures State() == old(State()).(taskName := taskName)
      ensures Valid()
    {
      this.taskName := taskName;
    }

    method SetDescription(description: Description)
      requires Valid()
      modifies this
      ensures State() == old(State()).(description := description)
      ensures Valid()
    {
      this.description := description;
    }

    method SetPreScript(preScript: Option<Script>)
      requires Valid()
      modifies this
      ensures State() == old(State()).(preScript := preScript)
      ensures HasPreScript() <==> preScript.Some?
      ensures Valid()
    {
      this.preScript := preScript;
    }

    method SetPostScript(postScript: Option<Script>)
      requires Valid()
      modifies this
      ensures State() == old(State()).(postScript := postScript)
      ensures HasPostScript() <==> postScript.Some?
      ensures Valid()
    {
      this.postScript := postScript;
    }

    method SetFlowScript(flowScript: Option<Script>)
      requires Valid()
      modifies this
      ensures State() == old(State()).(flowScript := flowScript)
      ensures HasFlowScript() <==> flowScript.Some?
      ensures Valid()
    {
      this.flowScript := flowScript;
    }

    method SetFlowBlock(flowBlock: Option<FlowBlock>)
      requires Valid()
      modifies this
      ensures State() == old(State()).(flowBlock := flowBlock)
      ensures HasFlowBlock() <==> flowBlock.Some?
      ensures Valid()
    {
      this.flowBlock := flowBlock;
    }

    // The implementation: inline text or a URL, never both.

    /** `setTaskImplementationFromURL`: store the URL and clear the inline text. */
    method SetTaskImplementationFromUrl(taskUrl: Option<string>)
      requires Valid()
      modifies this
      ensures State() == old(State()).(implementationUrl := taskUrl, implementation := "")
      ensures Valid()
    {
      implementationUrl := taskUrl;
      implementation := "";
    }

    /** `setTaskImplementation`: store the text behind exactly one newline and clear the URL. */
    method SetTaskImplementation(taskImplementation: string)
      requires Valid()
      modifies this
      ensures State() == old(State()).(implementation := "\n" + taskImplementation,
                                       implementationUrl := None)
      ensures implementation[0] == '\n' && implementation[1..] == taskImplementation
      ensures Valid()
    {
      implementation := "\n";
      implementation := implementation + taskImplementation;
      implementationUrl := None;
    }

    /**
     * `setTaskImplementationFromFile`: when the file exists its contents become the inline
     * implementation; otherwise nothing changes.
     */
    method SetTaskImplementationFromFile(taskFile: string, files: FileSystem)
      requires Valid()
      modifies this
      ensures taskFile in files ==>
                State() == old(State()).(implementation := "\n" + files[taskFile],
                                         implementationUrl := None)
      ensures taskFile !in files ==> State() == old(State())
      ensures Valid()
    {
      if taskFile in files {
        SetTaskImplementation(files[taskFile]);
      }
    }

    // Variables and generic information: insertion-ordered dicts.

    /** `addVariable`: upsert; the key now maps to the value and every other key is unchanged. */
    method AddVariable(key: string, value: string)
      requires Valid()
      modifies this
      ensures State() == old(State()).(variables := Put(old(variables), key, value))
      ensures ToMap(variables) == ToMap(old(variables))[key := value]
      ensures Keys(variables) ==
                if key in Keys(old(variables)) then Keys(old(variables))
                else Keys(old(variables)) + [key]
      ensures Valid()
    {
      PutUnique(variables, key, value);
      PutToMap(variables, key, value);
      PutKeyOrder(variables, key, value);
      variables := Put(variables, key, value);
    }

    /** `removeVariable`: KeyError when the key is absent, otherwise only that key goes. */
    method RemoveVariable(key: string) returns (status: Status)
      requires Valid()
      modifies this
      ensures status == if key in Keys(old(variables)) then Done else Raised(KeyError)
      ensures status.Raised? ==> State() == old(State())
      ensures status.Done? ==>
                State() == old(State()).(variables := Remove(old(variables), key).value)
                && ToMap(variables) == ToMap(old(variables)) - {key}
                && Some(Keys(variables)) == Lists.RemoveFirst(Keys(old(variables)), key)
      ensures Valid()
    {
      match Remove(variables, key)
      case None =>
        status := Raised(KeyError);
      case Some(rest) =>
        RemoveUnique(variables, key);
        RemoveToMap(variables, key);
        RemoveKeyOrder(variables, key);
        variables := rest;
        status := Done;
    }

    /** `clearVariables`: the dict becomes empty. */
    method ClearVariables()
      requires Valid()
      modifies this
      ensures State() == old(State()).(variables := [])
      ensures !HasVariables()
      ensures Valid()
    {
      variables := [];
    }

    /** `addGenericInformation`: upsert, as for variables. */
    method AddGenericInformation(key: string, value: string)
      requires Valid()
      modifies this
      ensures State() == old(State()).(genericInformation := Put(old(genericInformation), key, value))
      ensures ToMap(genericInformation) == ToMap(old(genericInformation))[key := value]
      ensures Get(genericInformation, key) == Some(value)
      ensures Keys(genericInformation) ==
                if key in Keys(old(genericInformation)) then Keys(old(genericInformation))
                else Keys(old(genericInformation)) + [key]
      ensures Valid()
    {
      PutUnique(genericInformation, key, value);
      PutToMap(genericInformation, key, value);
      PutKeyOrder(genericInformation, key, value);
      genericInformation := Put(genericInformation, key, value);
    }

    /** `removeGenericInformation`: KeyError when the key is absent, otherwise only that key goes. */
    method RemoveGenericInformation(key: string) returns (status: Status)
      requires Valid()
      modifies this
      ensures status == if key in Keys(old(genericInformation)) then Done else Raised(KeyError)
      ensures status.Raised? ==> State() == old(State())
      ensures status.Done? ==>
                State() == old(State()).(genericInformation := Remove(old(genericInformation), key).value)
                && ToMap(genericInformation) == ToMap(old(genericInformation)) - {key}
                && Some(Keys(genericInformation)) == Lists.RemoveFirst(Keys(old(genericInformation)), key)
      ensures Valid()
    {
      match Remove(genericInformation, key)
      case None =>
        status := Raised(KeyError);
      case Some(rest) =>
        RemoveUnique(genericInformation, key);
        RemoveToMap(genericInformation, key);
        RemoveKeyOrder(genericInformation, key);
        genericInformation := rest;
        status := Done;
    }

    /** `clearGenericInformation`: the dict becomes empty. */
    method ClearGenericInformation()
      requires Valid()
      modifies this
      ensures State() == old(State()).(genericInformation := [])
      ensures Valid()
    {
      genericInformation := [];
    }

    // Input files, output files and dependencies: ordered lists that allow duplicates.

    /** `addInputFile`: append at the end. */
    method AddInputFile(inputFile: string)
      requires Valid()
      modifies this
      ensures State() == old(State()).(inputFiles := old(inputFiles) + [inputFile])
      ensures Valid()
    {
      inputFiles := inputFiles + [inputFile];
    }

    /** `removeInputFile`: ValueError when absent, otherwise the first occurrence goes. */
    method RemoveInputFile(inputFile: string) returns (status: Status)
      requires Valid()
      modifies this
      ensures status == if inputFile in old(inputFiles) then Done else Raised(ValueError)
      ensures status.Raised? ==> State() == old(State())
      ensures status.Done? ==>
                State() == old(State()).(inputFiles := Lists.RemoveFirst(old(inputFiles), inputFile).value)
      ensures Valid()
    {
      match Lists.RemoveFirst(inputFiles, inputFile)
      case None =>
        status := Raised(ValueError);
      case Some(rest) =>
        inputFiles := rest;
        status := Done;
    }

    /** `clearInputFiles`: the list becomes empty. */
    method ClearInputFiles()
      requires Valid()
      modifies this
      ensures State() == old(State()).(inputFiles := [])
      ensures Valid()
    {
      inputFiles := [];
    }

    /** `addOutputFile`: append at the end. */
    method AddOutputFile(outputFile: string)
      requires Valid()
      modifies this
      ensures State() == old(State()).(outputFiles := old(outputFiles) + [outputFile])
      ensures Valid()
    {
      outputFiles := outputFiles + [outputFile];
    }

    /** `removeOutputFile`: ValueError when absent, otherwise the first occurrence goes. */
    method RemoveOutputFile(outputFile: string) returns (status: Status)
      requires Valid()
      modifies this
      ensures status == if outputFile in old(outputFiles) then Done else Raised(ValueError)
      ensures status.Raised? ==> State() == old(State())
      ensures status.Done? ==>
                State() == old(State()).(outputFiles := Lists.RemoveFirst(old(outputFiles), outputFile).value)
      ensures Valid()
    {
      match Lists.RemoveFirst(outputFiles, outputFile)
      case None =>
        status := Raised(ValueError);
      case Some(rest) =>
        outputFiles := rest;
        status := Done;
    }

    /** `clearOutputFiles`: the list becomes empty. */
    method ClearOutputFiles()
      requires Valid()
      modifies this
      ensures State() == old(State()).(outputFiles := [])
      ensures Valid()
    {
      outputFiles := [];
    }

    /**
     * `addDependency`: append a reference to another task (or to this one: cycles are not
     * checked here).
     */
    method AddDependency(task: Task)
      requires Valid()
      modifies this
      ensures State() == old(State()).(dependencies := old(dependencies) + [task])
      ensures Valid()
    {
      dependencies := dependencies + [task];
    }

    /** `removeDependency`: ValueError when absent, otherwise the first identical reference goes. */
    method RemoveDependency(task: Task) returns (status: Status)
      requires Valid()
      modifies this
      ensures status == if task in old(dependencies) then Done else Raised(ValueError)
      ensures status.Raised? ==> State() == old(State())
      ensures status.Done? ==>
                State() == old(State()).(dependencies := Lists.RemoveFirst(old(dependencies), task).value)
      ensures Valid()
    {
      match Lists.RemoveFirst(dependencies, task)
      case None =>
        status := Raised(ValueError);
      case Some(rest) =>
        dependencies := rest;
        status := Done;
    }

    /** `clearDependencies`: the list becomes empty. */
    method ClearDependencies()
      requires Valid()
      modifies this
      ensures State() == old(State()).(dependencies := [])
      ensures Valid()
    {
      dependencies := [];
    }

    // Payload generation for Python tasks.

    /**
     * `setTaskExecutionFromFile`: when the file exists, the implementation becomes the file-mode
     * script and the file is appended to the input files; otherwise nothing changes.
     */
    method SetTaskExecutionFromFile(taskFile: string, files: FileSystem,
                                    parameters: seq<string> := [],
                                    displayTaskResultOnScheduler: bool := true)
      requires Valid()
      modifies this
      ensures taskFile in files ==>
                State() == old(State()).(
                  implementation := "\n" + Payload.FileModeScript(taskFile, parameters, displayTaskResultOnScheduler),
                  implementationUrl := None,
                  inputFiles := old(inputFiles) + [taskFile])
      ensures taskFile !in files ==> State() == old(State())
      ensures Valid()
    {
      if taskFile in files {
        var taskImplementation := Payload.ImportSubprocess;
        taskImplementation := taskImplementation + "\n";
        taskImplementation := taskImplementation + Payload.RunningLine(taskFile, parameters);
        taskImplementation := taskImplementation + "\n";
        taskImplementation := taskImplementation + Payload.InvocationLine(taskFile, parameters);
        taskImplementation := taskImplementation + "\n";
        if displayTaskResultOnScheduler {
          taskImplementation := taskImplementation + Payload.Separator;
          taskImplementation := taskImplementation + "\n";
          taskImplementation := taskImplementation + Payload.EchoResult;
          taskImplementation := taskImplementation + "\n";
          taskImplementation := taskImplementation + Payload.Separator;
          taskImplementation := taskImplementation + "\n";
        }
        taskImplementation := taskImplementation + Payload.Finished;
        Payload.FileModeScriptText(taskFile, parameters, displayTaskResultOnScheduler);
        SetTaskImplementation(taskImplementation);
        AddInputFile(taskFile);
      }
    }

    /**
     * `setTaskExecutionFromLambdaFunction`, given the rendered base64 payload of the pickled
     * closure: the implementation becomes the closure-mode script.
     */
    method SetTaskExecutionFromLambdaFunction(payload: string)
      requires Valid()
      modifies this
      ensures State() == old(State()).(implementation := "\n" + Payload.ClosureModeScript(payload),
                                       implementationUrl := None)
      ensures Valid()
    {
      var taskImplementation := "import pickle";
      taskImplementation := taskImplementation + "\n";
      taskImplementation := taskImplementation + "import codecs";
      taskImplementation := taskImplementation + "\n";
      taskImplementation := taskImplementation + ("result = pickle.loads(codecs.decode(" + payload + ", \"base64\"))()");
      taskImplementation := taskImplementation + "\n";
      taskImplementation := taskImplementation + "print('result: ', result)";
      Payload.ClosureModeScriptText(payload);
      SetTaskImplementation(taskImplementation);
    }
  }
}
