# ProActive task descriptor

A model of the task descriptor of the ProActive Python client. Client code builds up one
schedulable unit of work step by step, and the workflow layer later serialises it for the scheduler.
A task holds:

- a script language;
- an optional fork environment and an optional selection script;
- a name;
- an implementation, which is either inline script text or a URL;
- two insertion-ordered dictionaries: job variables and generic information;
- three ordered lists: input files, output files and dependencies on other tasks;
- a description;
- optional pre, post and flow scripts, and an optional flow block;
- a "precious result" flag.

The Python flavour of a task records the interpreter command under the generic-information key
`PYTHON_COMMAND`. It can also generate its implementation in two ways:

- **file mode:** a script that shells out to `python <file> <parameters>`;
- **closure mode:** a script that unpickles a serialised closure and calls it.

The model has six modules:

- `Wrappers`: `Option`, the two exceptions the model represents (`KeyError`, `ValueError`), and
  `Status`, the outcome of an operation that may raise.
- `Lists`: Python's `list.remove` as `RemoveFirst`. It removes the first occurrence, or gives
  `None` where Python raises ValueError.
- `OrderedDict`: Python's `dict` as the task uses it. It is an association list with unique
  keys.
  - Assigning an existing key overwrites it in place; assigning a new key appends it.
  - `del` gives `None` on a missing key, where Python raises KeyError.
  - `ToMap` is the order-free view.
- `Text`: `sep.join(parts)` as `Join`, and `s.split(sep)` as its inverse `Split`.
- `Payload`: the file-mode and closure-mode scripts as lists of lines joined with newlines.
- `ProactiveTask`: the class `Task`.
  - Its fields are the descriptor's fields. `State()` gives a snapshot of all of them as a
    `TaskState` value.
  - `Valid()` is the invariant every operation keeps:
    - the inline text is empty whenever a URL is set;
    - stored inline text always starts with the newline that setting it prepends;
    - keys are unique in both dicts.
  - Every state-changing method states the whole new state as `old(State())` with the fields it
    assigns replaced, so "nothing else changes" is part of each contract.
  - The generic constructor and the Python subclass's constructor are the two constructors of the
    one class.
  - Getters and `has*` checks are plain reads of the fields. The `has*` checks are true exactly
    when the optional field is present, and each setter states the check's value after the call.

The file system is the parameter `files`, a map from each existing path to the text that reading
the file returns. A path is in the map exactly when the file exists.

## Model

| member | source | states |
|---|---|---|
| `ProactiveTask.InitialState` | proactive-python-client/proactive/model/ProactiveTask.py:26-43 | a fresh task satisfies the descriptor invariant: no inline text, no URL, empty dicts and lists, no optional parts |
| `ProactiveTask.Task.constructor` | proactive-python-client/proactive/model/ProactiveTask.py:26-43 | the new task holds the given language and name and otherwise the initial state, and satisfies the invariant |
| `ProactiveTask.Task.Python` | proactive-python-client/proactive/model/ProactiveTask.py:236-238 | a Python task is the initial state with the script-language value the caller supplies for Python, and its generic information is exactly `PYTHON_COMMAND` bound to the default interpreter |
| `ProactiveTask.Task.HasVariables` | proactive-python-client/proactive/model/ProactiveTask.py:131-132 | true exactly when some key has a value, i.e. the dict is non-empty |
| `ProactiveTask.Task.HasForkEnvironment` | proactive-python-client/proactive/model/ProactiveTask.py:69-70 | true exactly when the fork environment the getter gives is not None; this holds by definition, and the setter's contract ties the check to the value set |
| `ProactiveTask.Task.HasSelectionScript` | proactive-python-client/proactive/model/ProactiveTask.py:96-97 | true exactly when the selection script the getter gives is not None; this holds by definition, and the setter's contract ties the check to the value set |
| `ProactiveTask.Task.HasPreScript` | proactive-python-client/proactive/model/ProactiveTask.py:200-201 | true exactly when the pre-script the getter gives is not None; this holds by definition, and the setter's contract ties the check to the value set |
| `ProactiveTask.Task.HasPostScript` | proactive-python-client/proactive/model/ProactiveTask.py:209-210 | true exactly when the post-script the getter gives is not None; this holds by definition, and the setter's contract ties the check to the value set |
| `ProactiveTask.Task.HasFlowScript` | proactive-python-client/proactive/model/ProactiveTask.py:218-219 | true exactly when the flow script the getter gives is not None; this holds by definition, and the setter's contract ties the check to the value set |
| `ProactiveTask.Task.HasFlowBlock` | proactive-python-client/proactive/model/ProactiveTask.py:227-228 | true exactly when the flow block the getter gives is not None; this holds by definition, and the setter's contract ties the check to the value set |
| `ProactiveTask.Task.SetScriptLanguage` | proactive-python-client/proactive/model/ProactiveTask.py:51-52 | replaces the language; every other field is unchanged |
| `ProactiveTask.Task.SetPreciousResult` | proactive-python-client/proactive/model/ProactiveTask.py:57-58 | replaces the flag; every other field is unchanged |
| `ProactiveTask.Task.SetForkEnvironment` | proactive-python-client/proactive/model/ProactiveTask.py:63-70 | replaces the fork environment; `HasForkEnvironment` holds exactly when the new value is present |
| `ProactiveTask.Task.SetRuntimeEnvironment` | proactive-python-client/proactive/model/ProactiveTask.py:72-88 | the fork environment becomes the value the runtime builder created, so it is present; nothing else changes |
| `ProactiveTask.Task.SetSelectionScript` | proactive-python-client/proactive/model/ProactiveTask.py:90-97 | replaces the selection script; `HasSelectionScript` holds exactly when it is present |
| `ProactiveTask.Task.SetTaskName` | proactive-python-client/proactive/model/ProactiveTask.py:99-100 | replaces the name; every other field is unchanged |
| `ProactiveTask.Task.SetTaskImplementationFromUrl` | proactive-python-client/proactive/model/ProactiveTask.py:105-107 | stores the URL and clears the inline text, which keeps the two mutually exclusive |
| `ProactiveTask.Task.SetTaskImplementation` | proactive-python-client/proactive/model/ProactiveTask.py:117-120 | the inline text becomes a newline followed by exactly the given text, and the URL is cleared |
| `ProactiveTask.Task.SetTaskImplementationFromFile` | proactive-python-client/proactive/model/ProactiveTask.py:112-115 | an existing file's contents become the inline implementation (behind the newline) and the URL is cleared; a missing file changes nothing |
| `ProactiveTask.Task.AddVariable` | proactive-python-client/proactive/model/ProactiveTask.py:125-126 | upsert: the map view gains or overwrites the key, an existing key keeps its position, a new key goes last, keys stay unique |
| `ProactiveTask.Task.RemoveVariable` | proactive-python-client/proactive/model/ProactiveTask.py:134-135 | KeyError exactly when the key is absent, and then nothing changes; otherwise the map view loses that key only and the key order loses it as `list.remove` would |
| `ProactiveTask.Task.ClearVariables` | proactive-python-client/proactive/model/ProactiveTask.py:137-138 | the dict becomes empty and `HasVariables` is false |
| `ProactiveTask.Task.AddGenericInformation` | proactive-python-client/proactive/model/ProactiveTask.py:140-141 | upsert as for variables; looking up the key afterwards gives the value |
| `ProactiveTask.Task.RemoveGenericInformation` | proactive-python-client/proactive/model/ProactiveTask.py:146-147 | KeyError exactly when the key is absent, with nothing changed; otherwise only that key goes |
| `ProactiveTask.Task.ClearGenericInformation` | proactive-python-client/proactive/model/ProactiveTask.py:149-150 | the dict becomes empty; nothing else changes |
| `ProactiveTask.Task.AddInputFile` | proactive-python-client/proactive/model/ProactiveTask.py:152-153 | appends at the end |
| `ProactiveTask.Task.RemoveInputFile` | proactive-python-client/proactive/model/ProactiveTask.py:155-156 | ValueError exactly when the file is absent, with nothing changed; otherwise the first occurrence is removed |
| `ProactiveTask.Task.ClearInputFiles` | proactive-python-client/proactive/model/ProactiveTask.py:158-159 | the list becomes empty |
| `ProactiveTask.Task.AddOutputFile` | proactive-python-client/proactive/model/ProactiveTask.py:164-165 | appends at the end |
| `ProactiveTask.Task.RemoveOutputFile` | proactive-python-client/proactive/model/ProactiveTask.py:167-168 | ValueError exactly when the file is absent, with nothing changed; otherwise the first occurrence is removed |
| `ProactiveTask.Task.ClearOutputFiles` | proactive-python-client/proactive/model/ProactiveTask.py:170-171 | the list becomes empty |
| `ProactiveTask.Task.AddDependency` | proactive-python-client/proactive/model/ProactiveTask.py:176-177 | appends a reference to the task at the end |
| `ProactiveTask.Task.RemoveDependency` | proactive-python-client/proactive/model/ProactiveTask.py:179-180 | ValueError exactly when no identical reference is present, with nothing changed; otherwise the first one is removed |
| `ProactiveTask.Task.ClearDependencies` | proactive-python-client/proactive/model/ProactiveTask.py:182-183 | the list becomes empty |
| `ProactiveTask.Task.SetDescription` | proactive-python-client/proactive/model/ProactiveTask.py:188-189 | replaces the description; every other field is unchanged |
| `ProactiveTask.Task.SetPreScript` | proactive-python-client/proactive/model/ProactiveTask.py:194-201 | replaces the pre-script; `HasPreScript` holds exactly when it is present |
| `ProactiveTask.Task.SetPostScript` | proactive-python-client/proactive/model/ProactiveTask.py:203-210 | replaces the post-script; `HasPostScript` holds exactly when it is present |
| `ProactiveTask.Task.SetFlowScript` | proactive-python-client/proactive/model/ProactiveTask.py:212-219 | replaces the flow script; `HasFlowScript` holds exactly when it is present |
| `ProactiveTask.Task.SetFlowBlock` | proactive-python-client/proactive/model/ProactiveTask.py:221-228 | replaces the flow block; `HasFlowBlock` holds exactly when it is present |
| `ProactiveTask.Task.SetTaskExecutionFromFile` | proactive-python-client/proactive/model/ProactiveTask.py:240-258 | for an existing file, the implementation becomes the file-mode script (behind the newline), the URL is cleared and the file is appended to the input files; a missing file changes nothing |
| `ProactiveTask.Task.SetTaskExecutionFromLambdaFunction` | proactive-python-client/proactive/model/ProactiveTask.py:260-269 | the implementation becomes the closure-mode script around the rendered payload, and the URL is cleared |
| `Payload.Command` | proactive-python-client/proactive/model/ProactiveTask.py:247 | the shell command is a single line exactly when the file name and the space-joined parameters are |
| `Payload.RunningLine` | proactive-python-client/proactive/model/ProactiveTask.py:245 | the announcement line is a single line exactly when the file name and the space-joined parameters are |
| `Payload.InvocationLine` | proactive-python-client/proactive/model/ProactiveTask.py:247 | the invocation line is a single line exactly when the file name and the space-joined parameters are |
| `Payload.FileModeLines` | proactive-python-client/proactive/model/ProactiveTask.py:243-256 | 7 lines with display, otherwise 4; the first is the subprocess import and the last prints `Finished`; all are single lines exactly when the file name and the space-joined parameters are |
| `Payload.FileModeScript` | proactive-python-client/proactive/model/ProactiveTask.py:240-256 | splitting the script at newlines gives back its lines if and only if neither the file name nor any parameter contains a newline |
| `Payload.ClosureModeLines` | proactive-python-client/proactive/model/ProactiveTask.py:262-268 | four lines, all single lines exactly when the rendered payload is |
| `Payload.ClosureModeScript` | proactive-python-client/proactive/model/ProactiveTask.py:262-268 | splitting the closure-mode script at newlines gives back its four lines if and only if the rendered payload has no newline |
| `Payload.CommandWords` | proactive-python-client/proactive/model/ProactiveTask.py:242-247 | for two parameters `a`, `b` the command is `python f a b`; for none it is `python f ` with a trailing space |
| `Payload.FileModeInvocation` | proactive-python-client/proactive/model/ProactiveTask.py:243-248 | the script begins with the import line, the announcement line and the invocation line, verbatim and in order |
| `Payload.FileModeScriptText` | proactive-python-client/proactive/model/ProactiveTask.py:243-256 | the line list joined with newlines is exactly the text the concatenations build, for each value of the display flag |
| `Payload.FileModeDisplay` | proactive-python-client/proactive/model/ProactiveTask.py:249-256 | the echo line and the separator line occur among the lines exactly when display is requested |
| `Payload.ParametersSingleLine` | proactive-python-client/proactive/model/ProactiveTask.py:242 | the space-joined parameters contain no newline exactly when no parameter does |
| `Payload.ClosureModeScriptText` | proactive-python-client/proactive/model/ProactiveTask.py:262-268 | the closure-mode line list joined with newlines is exactly the text the concatenations build |
| `Lists.RemoveFirst` | proactive-python-client/proactive/model/ProactiveTask.py:155-156 | `None` (ValueError) exactly when the element is absent; otherwise the list with its first occurrence cut out |
| `Lists.RemoveFirstMultiset` | proactive-python-client/proactive/model/ProactiveTask.py:155-156 | removing a present element takes away exactly one copy of it, and the length drops by one |
| `Lists.RemoveAppended` | proactive-python-client/proactive/model/ProactiveTask.py:152-156 | removing an element just appended to a list that did not contain it gives back that list |
| `Lists.AppendThenRemove` | proactive-python-client/proactive/model/ProactiveTask.py:152-156 | append then remove: the append adds exactly one copy, the removal always succeeds and keeps the same elements, and it restores the list when the element was new |
| `Lists.AppendThenRemoveReorders` | proactive-python-client/proactive/model/ProactiveTask.py:152-156 | for `[x, y] + [x]` with `x != y` the earlier copy is removed, giving `[y, x]` rather than `[x, y]` |
| `OrderedDict.Get` | proactive-python-client/proactive/model/ProactiveTask.py:125-150 | the lookup misses exactly when the key is not among the keys |
| `OrderedDict.Put` | proactive-python-client/proactive/model/ProactiveTask.py:125-126 | after assignment the key maps to the new value |
| `OrderedDict.Remove` | proactive-python-client/proactive/model/ProactiveTask.py:134-135 | `None` (KeyError) exactly when the key is absent |
| `OrderedDict.GetIsToMap` | proactive-python-client/proactive/model/ProactiveTask.py:125-150 | lookups in the association list agree with its map view |
| `OrderedDict.PutToMap` | proactive-python-client/proactive/model/ProactiveTask.py:125-126 | last write wins: the map view after assignment is the old one with the key rebound |
| `OrderedDict.PutGet` | proactive-python-client/proactive/model/ProactiveTask.py:125-126 | assignment changes the lookup of that key only |
| `OrderedDict.PutKeyOrder` | proactive-python-client/proactive/model/ProactiveTask.py:125-126 | overwriting keeps the key order; a new key is appended |
| `OrderedDict.PutUnique` | proactive-python-client/proactive/model/ProactiveTask.py:125-126 | assignment keeps keys unique |
| `OrderedDict.PutTwice` | proactive-python-client/proactive/model/ProactiveTask.py:125-126 | assigning a key twice leaves exactly the dict that the second assignment alone gives, position included |
| `OrderedDict.PutThenRemove` | proactive-python-client/proactive/model/ProactiveTask.py:125-135 | adding a new key and then deleting it gives back the original dict |
| `OrderedDict.RemoveKeyOrder` | proactive-python-client/proactive/model/ProactiveTask.py:134-135 | `del` removes the key from the key order the way `list.remove` would, and fails when it would |
| `OrderedDict.RemoveToMap` | proactive-python-client/proactive/model/ProactiveTask.py:134-135 | deleting a present key: the map view loses that key and nothing else |
| `OrderedDict.RemoveUnique` | proactive-python-client/proactive/model/ProactiveTask.py:134-135 | deletion keeps keys unique |
| `OrderedDict.EmptyIffNoKey` | proactive-python-client/proactive/model/ProactiveTask.py:131-132 | a dict is empty exactly when no key has a value (Python's truthiness of a dict) |
| `Text.Join` | proactive-python-client/proactive/model/ProactiveTask.py:242 | `sep.join(parts)`: a join of n parts has the parts' characters plus n - 1 separators |
| `Text.Split` | proactive-python-client/proactive/model/ProactiveTask.py:242 | the reference inverse of the join at this line (the source never splits): at least one piece, none containing the separator; it states the line-structure properties of the generated scripts |
| `Text.JoinAppend` | proactive-python-client/proactive/model/ProactiveTask.py:242 | joining two non-empty lists puts one separator between the two joins |
| `Text.SplitJoin` | proactive-python-client/proactive/model/ProactiveTask.py:242 | splitting undoes joining if and only if there is a part and no part contains the separator |
| `Text.JoinSplit` | proactive-python-client/proactive/model/ProactiveTask.py:242 | joining the pieces of a split gives back the text |
| `Text.JoinAmbiguous` | proactive-python-client/proactive/model/ProactiveTask.py:242 | joining is not injective: a part containing the separator looks like two parts |
| `Text.CharInJoin` | proactive-python-client/proactive/model/ProactiveTask.py:242 | a character occurs in a join exactly when it occurs in a part, or it is the separator and there are two or more parts |

## Left out

- `__str__` and `__repr__` are not modelled. They only return the task name, which `GetTaskName` reads.
- Closure serialisation is not modelled. `cloudpickle.dumps` and the base64 encoding are outside
  the model, so `SetTaskExecutionFromLambdaFunction` takes the text that `%s` renders from the
  encoded bytes as its parameter.
  - In the real client that text is a `b'...'` literal with escaped newlines. So
    the line-structure condition of `Payload.ClosureModeScript` is met in practice.
- File I/O is the `files` parameter:
  - `os.path.exists` becomes membership in the map;
  - reading the file in text mode becomes the stored text, including Python's newline
    translation.
  - A path that exists but cannot be read (a directory, a file without read permission) makes
    Python raise from `open`. The model does not capture this.
  - The source file calls `os.path.exists` without importing `os` itself. The model assumes `os`
    arrives through its star imports. If it does not, both `setTaskImplementationFromFile` and
    `setTaskExecutionFromFile` raise NameError on every call.
- `SetRuntimeEnvironment` does not model the runtime-environment builder, which is outside this
  model. Its ten container options are replaced by the value the builder creates. The model
  assumes that `ProactiveRuntimeEnv().create(...)` never returns None: `created` is not an
  `Option`, so `HasForkEnvironment` always holds afterwards. If the builder can return None,
  Python's `hasForkEnvironment` would be false there.
- Collaborators are opaque. Script languages, fork environments, selection scripts,
  pre/post/flow scripts and flow blocks are abstract types that the task only stores.
- Dynamic typing is narrowed to one type per field:
  - variable and generic-information values are strings;
  - the URL is an optional string;
  - the description is `EmptyDescription` (the initial empty list) or a text.
  - The TypeError that Python raises on a non-string parameter (from `' '.join`) or on
    non-string concatenation is not represented.
- The two classes are merged:
  - the Python subclass becomes the named constructor `Python` on the one class;
  - `Python` takes the Python script-language value from its caller, because the script-language
    factory (`ProactiveScriptLanguage().python()`) is not part of this model;
  - its two payload methods are available on every task;
  - subtyping is not modelled.
- Getters return values, not shared references. Python callers that mutate a returned dict or
  list change the task; the model does not capture that aliasing.
- Shell quoting is not modelled. A file name or parameter containing a quote breaks the generated
  invocation line. Only the line structure, under embedded newlines, is proved.
