/**
 * The interpreter's sandbox state: standard I/O, working directory,
 * variables, file system, truths of conditions, functions, the screen,
 * and the stacks that save the outer scope while a subshell, function or
 * command substitution runs.
 *
 * `StateValue` holds the state as a value; its member functions say what
 * each operation of the source does to it. The class `State` keeps the same
 * fields and changes them in place; each method is proved against the
 * matching member function.
 */
module Primitives {
  import opened Wrappers
  import opened PyStr
  import opened FileSystem
  import opened BashAst

  /** A stored truth: the source stores booleans from the prompt and from
      `set_truth`, and the strings "t"/"f" after executing a condition. */
  datatype Truth = Bool(b: bool) | Str(s: string)

  /** The value handed to `set_variable`: a single string is wrapped in a list. */
  datatype VarValue = Scalar(s: string) | List(items: seq<string>)

  function ValueItems(v: VarValue): seq<string> {
    if v.Scalar? then [v.s] else v.items
  }

  /** `str(i)` keys of the positional variables. */
  function Positional(i: nat): string { NatToString(i) }

  datatype StateValue = StateValue(
    stdio: FileSocket,
    workingDir: string,
    variables: Vars,
    fs: map<string, File>,
    openSockets: seq<FileSocket>,
    truths: map<string, Truth>,
    functions: Functions,
    startingWorkingDir: string,
    stdiosAbove: seq<FileSocket>,
    workingDirsAbove: seq<string>,
    variablesAbove: seq<Vars>,
    functionsAbove: seq<Functions>,
    screensAbove: seq<string>,
    screen: string)
  {
    /** `lower_scope`: the current I/O, directory, variables, functions and screen
        are saved on their stacks; the live copies start equal and the screen empty. */
    function LowerScope(): (s: StateValue)
      ensures s.screensAbove == screensAbove + [screen] && s.screen == ""
      ensures s.stdiosAbove == stdiosAbove + [stdio] && s.stdio == stdio
      ensures s.workingDirsAbove == workingDirsAbove + [workingDir] && s.workingDir == workingDir
      ensures s.variablesAbove == variablesAbove + [variables] && s.variables == variables
      ensures s.functionsAbove == functionsAbove + [functions] && s.functions == functions
      ensures s.fs == fs && s.truths == truths && s.openSockets == openSockets
      ensures s.startingWorkingDir == startingWorkingDir
    {
      this.(screensAbove := screensAbove + [screen],
            stdiosAbove := stdiosAbove + [stdio],
            workingDirsAbove := workingDirsAbove + [workingDir],
            variablesAbove := variablesAbove + [variables],
            functionsAbove := functionsAbove + [functions],
            screen := "")
    }

    /** `raise_scope`: each non-empty stack is popped into its live value; the saved
        screen is put in front of what the inner scope printed. */
    function RaiseScope(): (s: StateValue)
      ensures |stdiosAbove| > 0 ==> s.stdio == stdiosAbove[|stdiosAbove| - 1] && s.stdiosAbove == stdiosAbove[..|stdiosAbove| - 1]
      ensures |stdiosAbove| == 0 ==> s.stdio == stdio && s.stdiosAbove == []
      ensures |workingDirsAbove| > 0 ==> s.workingDir == workingDirsAbove[|workingDirsAbove| - 1] && s.workingDirsAbove == workingDirsAbove[..|workingDirsAbove| - 1]
      ensures |workingDirsAbove| == 0 ==> s.workingDir == workingDir && s.workingDirsAbove == []
      ensures |variablesAbove| > 0 ==> s.variables == variablesAbove[|variablesAbove| - 1] && s.variablesAbove == variablesAbove[..|variablesAbove| - 1]
      ensures |variablesAbove| == 0 ==> s.variables == variables && s.variablesAbove == []
      ensures |functionsAbove| > 0 ==> s.functions == functionsAbove[|functionsAbove| - 1] && s.functionsAbove == functionsAbove[..|functionsAbove| - 1]
      ensures |functionsAbove| == 0 ==> s.functions == functions && s.functionsAbove == []
      ensures |screensAbove| > 0 ==> s.screen == screensAbove[|screensAbove| - 1] + screen && s.screensAbove == screensAbove[..|screensAbove| - 1]
      ensures |screensAbove| == 0 ==> s.screen == screen && s.screensAbove == []
      ensures s.fs == fs && s.truths == truths && s.openSockets == openSockets
      ensures s.startingWorkingDir == startingWorkingDir
    {
      PopStdio().PopWorkingDir().PopVariables().PopFunctions().PopScreen()
    }

    function PopStdio(): (s: StateValue)
      ensures |stdiosAbove| > 0 ==> s.stdio == stdiosAbove[|stdiosAbove| - 1] && s.stdiosAbove == stdiosAbove[..|stdiosAbove| - 1]
      ensures |stdiosAbove| == 0 ==> s == this
      ensures s == this.(stdio := s.stdio, stdiosAbove := s.stdiosAbove)
    {
      if |stdiosAbove| > 0 then this.(stdio := stdiosAbove[|stdiosAbove| - 1], stdiosAbove := stdiosAbove[..|stdiosAbove| - 1]) else this
    }

    function PopWorkingDir(): (s: StateValue)
      ensures |workingDirsAbove| > 0 ==> s.workingDir == workingDirsAbove[|workingDirsAbove| - 1] && s.workingDirsAbove == workingDirsAbove[..|workingDirsAbove| - 1]
      ensures |workingDirsAbove| == 0 ==> s == this
      ensures s == this.(workingDir := s.workingDir, workingDirsAbove := s.workingDirsAbove)
    {
      if |workingDirsAbove| > 0 then this.(workingDir := workingDirsAbove[|workingDirsAbove| - 1], workingDirsAbove := workingDirsAbove[..|workingDirsAbove| - 1]) else this
    }

    function PopVariables(): (s: StateValue)
      ensures |variablesAbove| > 0 ==> s.variables == variablesAbove[|variablesAbove| - 1] && s.variablesAbove == variablesAbove[..|variablesAbove| - 1]
      ensures |variablesAbove| == 0 ==> s == this
      ensures s == this.(variables := s.variables, variablesAbove := s.variablesAbove)
    {
      if |variablesAbove| > 0 then this.(variables := variablesAbove[|variablesAbove| - 1], variablesAbove := variablesAbove[..|variablesAbove| - 1]) else this
    }

    function PopFunctions(): (s: StateValue)
      ensures |functionsAbove| > 0 ==> s.functions == functionsAbove[|functionsAbove| - 1] && s.functionsAbove == functionsAbove[..|functionsAbove| - 1]
      ensures |functionsAbove| == 0 ==> s == this
      ensures s == this.(functions := s.functions, functionsAbove := s.functionsAbove)
    {
      if |functionsAbove| > 0 then this.(functions := functionsAbove[|functionsAbove| - 1], functionsAbove := functionsAbove[..|functionsAbove| - 1]) else this
    }

    function PopScreen(): (s: StateValue)
      ensures |screensAbove| > 0 ==> s.screen == screensAbove[|screensAbove| - 1] + screen && s.screensAbove == screensAbove[..|screensAbove| - 1]
      ensures |screensAbove| == 0 ==> s == this
      ensures s == this.(screen := s.screen, screensAbove := s.screensAbove)
    {
      if |screensAbove| > 0 then this.(screen := screensAbove[|screensAbove| - 1] + screen, screensAbove := screensAbove[..|screensAbove| - 1]) else this
    }

    /** `enter_subshell`: a lowered scope with a fresh socket, back in the start directory. */
    function EnterSubshell(): (s: StateValue)
      ensures s == LowerScope().(stdio := FileSocket(0, "", ""), workingDir := startingWorkingDir)
    {
      LowerScope().(stdio := FileSocket(0, "", ""), workingDir := startingWorkingDir)
    }

    /** `update_file_system`: the file is stored under its resolved path; an empty
        name is the source's IndexError. */
    function UpdateFileSystem(name: string, contents: string, permissions: string, location: Option<string>): (r: Result<StateValue>)
      ensures r.Ok? <==> |name| > 0
      ensures r.Ok? ==> var p := ResolvePath(name, if location.Some? then location.value else workingDir).value;
        r.value == this.(fs := fs[p := File(p, Some(contents), permissions)])
    {
      var p := ResolvePath(name, if location.Some? then location.value else workingDir);
      if p.None? then Err(IndexError)
      else Ok(this.(fs := fs[p.value := File(p.value, Some(contents), permissions)]))
    }

    /** `set_variable`. */
    function SetVariable(name: string, v: VarValue): (s: StateValue)
      ensures s.variables == variables[name := ValueItems(v)]
      ensures s == this.(variables := s.variables)
    {
      this.(variables := variables[name := ValueItems(v)])
    }

    /** `update_variable_list`, a `bashparser` helper. */
    function UpdateVariableList(bp: Bashparser, node: Node): StateValue {
      this.(variables := bp.updateVariableList(node, variables))
    }

    /** `shift_variables`: "1" gets "2", "2" gets "3", ... and the last positional
        name is removed; with neither "1" nor "2" present the source raises KeyError. */
    function ShiftVariables(): (r: Result<StateValue>)
    {
      var v := ShiftFrom(variables, 1);
      if v.Ok? then Ok(this.(variables := v.value)) else Err(v.error)
    }

    /** `set_truth`. */
    function SetTruth(name: string, value: bool): (s: StateValue)
      ensures s.truths == truths[name := Bool(value)]
      ensures s == this.(truths := s.truths)
    {
      this.(truths := truths[name := Bool(value)])
    }

    /** `test_truth`: `None` when the condition has no stored truth. */
    function TestTruth(name: string): (t: Option<Truth>)
      ensures t.Some? <==> name in truths
      ensures t.Some? ==> t.value == truths[name]
    {
      if name in truths then Some(truths[name]) else None
    }

    /** `unset_functions`: removes the function from the live table and says whether
        it was there. A name held by a saved outer table makes the source index a
        list with a string, a TypeError, before anything changes. */
    function UnsetFunctions(name: string): (r: Result<(StateValue, bool)>)
      ensures r.Err? <==> exists k :: 0 <= k < |functionsAbove| && name in functionsAbove[k]
      ensures r.Ok? ==> r.value.1 == (name in functions)
      ensures r.Ok? ==> r.value.0 == this.(functions := functions - {name})
    {
      if exists k :: 0 <= k < |functionsAbove| && name in functionsAbove[k] then Err(TypeError)
      else Ok((this.(functions := functions - {name}), name in functions))
    }

    /** `unset_varibles`, the same for variables. */
    function UnsetVariables(name: string): (r: Result<(StateValue, bool)>)
      ensures r.Err? <==> exists k :: 0 <= k < |variablesAbove| && name in variablesAbove[k]
      ensures r.Ok? ==> r.value.1 == (name in variables)
      ensures r.Ok? ==> r.value.0 == this.(variables := variables - {name})
    {
      if exists k :: 0 <= k < |variablesAbove| && name in variablesAbove[k] then Err(TypeError)
      else Ok((this.(variables := variables - {name}), name in variables))
    }

    /** `STDIN(IN)`: only a value that is not `None` replaces IN. */
    function SetStdin(v: Option<string>): (s: StateValue)
      ensures v.Some? ==> s == this.(stdio := stdio.(IN := v.value))
      ensures v.None? ==> s == this
    {
      if v.Some? then this.(stdio := stdio.(IN := v.value)) else this
    }

    /** `STDOUT(OUT)`. */
    function SetStdout(v: Option<string>): (s: StateValue)
      ensures v.Some? ==> s == this.(stdio := stdio.(OUT := v.value))
      ensures v.None? ==> s == this
    {
      if v.Some? then this.(stdio := stdio.(OUT := v.value)) else this
    }

    /** `print_to_screen`: pending output becomes a screen line and OUT is emptied. */
    function PrintToScreen(): (s: StateValue)
      ensures s.stdio.OUT == "" && s.stdio.IN == stdio.IN && s.stdio.id == stdio.id
      ensures stdio.OUT != "" ==> s.screen == screen + stdio.OUT + "\n"
      ensures stdio.OUT == "" ==> s == this
      ensures s == this.(stdio := s.stdio, screen := s.screen)
    {
      if stdio.OUT != "" then this.(screen := screen + stdio.OUT + "\n", stdio := stdio.(OUT := "")) else this
    }

    function ClearScreen(): (s: StateValue)
      ensures s == this.(screen := "")
    {
      this.(screen := "")
    }

    /** `copy_file`: a missing source is first created empty, then the target gets it. */
    function CopyFile(source: string, target: string): (s: StateValue)
      ensures source in s.fs && target in s.fs && s.fs[target] == s.fs[source]
      ensures source in fs ==> s.fs == fs[target := fs[source]]
      ensures source !in fs ==> s.fs == fs[source := File(source, Some(""), DefaultPermissions)][target := File(source, Some(""), DefaultPermissions)]
      ensures s == this.(fs := s.fs)
    {
      var fs1 := if source !in fs then fs[source := File(source, Some(""), DefaultPermissions)] else fs;
      this.(fs := fs1[target := fs1[source]])
    }

    /** `remove_file`: deletes the entry if there is one. */
    function RemoveFile(name: string): (s: StateValue)
      ensures s == this.(fs := fs - {name})
    {
      this.(fs := fs - {name})
    }

    /** `build_functions`, a `bashparser` helper. */
    function BuildFunctions(bp: Bashparser, node: Node): StateValue {
      this.(functions := bp.buildFnTable(node, functions))
    }

    /** `resolve_functions`: the first node the helper returns. */
    function ResolveFunctions(bp: Bashparser, node: Node): (r: Result<Node>)
      ensures r.Ok? <==> |bp.resolveFunctions(node, functions, variables)| > 0
    {
      var ns := bp.resolveFunctions(node, functions, variables);
      if |ns| == 0 then Err(IndexError) else Ok(ns[0])
    }

    /** `replace`: variable substitution through the helper the `full` flag picks. */
    function Replace(bp: Bashparser, nodes: seq<Node>, full: bool): seq<Node> {
      if full then bp.substituteVariables(nodes, variables) else bp.replaceVariables(nodes, variables)
    }

    /** What `State.__eq__` compares. */
    function Observed(): (FileSocket, string, Vars, map<string, File>, seq<FileSocket>, map<string, Truth>) {
      (stdio, workingDir, variables, fs, openSockets, truths)
    }

    /** `State.__eq__`: socket, directory, variables, files, open sockets pairwise,
        and truths; the screen, functions and saved scopes are not compared. */
    predicate Equals(other: StateValue) {
      stdio.Equals(other.stdio) && workingDir == other.workingDir && variables == other.variables
      && fs == other.fs && |openSockets| == |other.openSockets|
      && (forall i :: 0 <= i < |openSockets| ==> openSockets[i].Equals(other.openSockets[i]))
      && truths == other.truths
    }
  }

  /** How a name is stored in the file system: names starting with `~` or `/` are
      absolute, others are put under `location` after dropping one leading "./";
      a trailing "/" is removed. `None` is the IndexError of an empty name. */
  function ResolvePath(name: string, location: string): (r: Option<string>)
    ensures r.Some? <==> |name| > 0
  {
    if |name| == 0 then None
    else
      var full := if name[0] == '~' || name[0] == '/' then name
                  else location + "/" + (if |name| >= 2 && name[..2] == "./" then name[2..] else name);
      Some(if full[|full| - 1] == '/' then full[..|full| - 1] else full)
  }

  /** Absolute names are kept, relative ones land under the location; a trailing
      slash never survives unless the whole result is empty. */
  lemma ResolvePathShape(name: string, location: string)
    requires |name| > 0
    ensures var p := ResolvePath(name, location).value;
      ((name[0] == '~' || name[0] == '/') && name[|name| - 1] != '/' ==> p == name)
      && ((name[0] == '~' || name[0] == '/') && name[|name| - 1] == '/' ==> p == name[..|name| - 1])
      && (!(name[0] == '~' || name[0] == '/') && |name| >= 2 && name[..2] == "./" && name[|name| - 1] != '/' ==> p == location + "/" + name[2..])
      && (!(name[0] == '~' || name[0] == '/') && !(|name| >= 2 && name[..2] == "./") && name[|name| - 1] != '/' ==> p == location + "/" + name)
  {
    if !(name[0] == '~' || name[0] == '/') && |name| >= 2 && name[..2] == "./" && name[|name| - 1] != '/' {
      var full := location + "/" + name[2..];
      assert full[|full| - 1] == name[|name| - 1];
    }
    if !(name[0] == '~' || name[0] == '/') && !(|name| >= 2 && name[..2] == "./") && name[|name| - 1] != '/' {
      var full := location + "/" + name;
      assert full[|full| - 1] == name[|name| - 1];
    }
  }

  /** Storing a file and looking it up again: the new entry is under the resolved path
      with that name, and no other entry changes. */
  lemma UpdateThenLookup(s: StateValue, name: string, contents: string, permissions: string, key: string)
    requires |name| > 0
    ensures var p := ResolvePath(name, s.workingDir).value;
      var t := s.UpdateFileSystem(name, contents, permissions, None).value;
      p in t.fs && t.fs[p] == File(p, Some(contents), permissions)
      && (key != p ==> (key in t.fs <==> key in s.fs) && (key in s.fs ==> t.fs[key] == s.fs[key]))
  {
  }

  /** The source's loop in `shift_variables`, one step per iteration, starting at `i`. */
  function ShiftFrom(vars: Vars, i: nat): (r: Result<Vars>)
    requires i >= 1
    ensures r.Err? ==> r.error == KeyError
    decreases ShiftMeasure(vars, i)
  {
    if Positional(i + 1) in vars then
      ShiftStepDecreases(vars, i);
      ShiftFrom(vars[Positional(i) := vars[Positional(i + 1)]], i + 1)
    else if Positional(i) in vars then Ok(vars - {Positional(i)})
    else Err(KeyError)
  }

  /** The positional-looking names above `i`: a bound on how long the loop runs. */
  function ShiftMeasure(vars: Vars, i: nat): nat {
    |set k | k in vars && IsDigits(k) && DigitsValue(k) > i|
  }

  lemma ShiftStepDecreases(vars: Vars, i: nat)
    requires i >= 1 && Positional(i + 1) in vars
    ensures ShiftMeasure(vars[Positional(i) := vars[Positional(i + 1)]], i + 1) < ShiftMeasure(vars, i)
  {
    var v2 := vars[Positional(i) := vars[Positional(i + 1)]];
    var a := set k | k in v2 && IsDigits(k) && DigitsValue(k) > i + 1;
    var b := set k | k in vars && IsDigits(k) && DigitsValue(k) > i;
    DigitsValueOfNatToString(i);
    DigitsValueOfNatToString(i + 1);
    assert a <= b;
    assert Positional(i + 1) in b && Positional(i + 1) !in a;
    SubsetCardinality(a, b - {Positional(i + 1)});
  }

  lemma SubsetCardinality<T>(a: set<T>, b: set<T>)
    requires a <= b
    ensures |a| <= |b|
    decreases |b|
  {
    if a != {} {
      var x :| x in a;
      SubsetCardinality(a - {x}, b - {x});
    }
  }

  /** The positional variables "1" .. "n" are present and "n+1" is not. */
  predicate PositionalRun(vars: Vars, n: nat) {
    n >= 1 && (forall j :: 1 <= j <= n ==> Positional(j) in vars) && Positional(n + 1) !in vars
  }

  /** With "1" .. "n" present, shifting moves every value down one name and removes
      "n"; every other variable keeps its value. */
  lemma {:induction false} ShiftMovesDown(vars: Vars, n: nat, i: nat)
    requires 1 <= i <= n
    requires forall j :: i <= j <= n ==> Positional(j) in vars
    requires Positional(n + 1) !in vars
    ensures ShiftFrom(vars, i).Ok?
    ensures var r := ShiftFrom(vars, i).value;
      Positional(n) !in r
      && (forall j :: i <= j < n ==> Positional(j) in r && r[Positional(j)] == vars[Positional(j + 1)])
      && (forall k :: k in vars && k != Positional(n) && !(exists j :: i <= j < n && k == Positional(j)) ==> k in r && r[k] == vars[k])
      && (forall k :: k in r ==> k in vars)
    decreases n - i
  {
    if i == n {
    } else {
      var v2 := vars[Positional(i) := vars[Positional(i + 1)]];
      forall j | i + 1 <= j <= n ensures Positional(j) in v2 { }
      ShiftMovesDown(v2, n, i + 1);
      var r := ShiftFrom(v2, i + 1).value;
      assert ShiftFrom(vars, i) == ShiftFrom(v2, i + 1);
      forall j | i + 1 <= j <= n ensures Positional(j) != Positional(i) {
        NatToStringInjective(i, j);
      }
      forall j | i + 1 <= j < n ensures r[Positional(j)] == vars[Positional(j + 1)] {
        assert v2[Positional(j + 1)] == vars[Positional(j + 1)];
      }
      assert Positional(i) in r && r[Positional(i)] == vars[Positional(i + 1)] by {
        assert Positional(i) in v2;
      }
      forall k | k in vars && k != Positional(n) && !(exists j :: i <= j < n && k == Positional(j))
        ensures k in r && r[k] == vars[k]
      {
        assert k != Positional(i);
        assert v2[k] == vars[k];
        assert !(exists j :: i + 1 <= j < n && k == Positional(j));
      }
    }
  }

  /** `shift_variables` on "1" .. "n": the run becomes "1" .. "n-1". */
  lemma ShiftVariablesRun(s: StateValue, n: nat)
    requires PositionalRun(s.variables, n)
    ensures s.ShiftVariables().Ok?
    ensures var r := s.ShiftVariables().value.variables;
      Positional(n) !in r && (forall j :: 1 <= j < n ==> Positional(j) in r && r[Positional(j)] == s.variables[Positional(j + 1)])
  {
    ShiftMovesDown(s.variables, n, 1);
  }

  /** With no positional variables at all, the source raises KeyError. */
  lemma ShiftWithoutArguments(s: StateValue)
    requires Positional(1) !in s.variables && Positional(2) !in s.variables
    ensures s.ShiftVariables() == Err(KeyError)
  {
  }

  /** A fresh state: the constructor's defaults. */
  function Initial(stdio: FileSocket, workingDir: string, variables: Vars, fs: map<string, File>,
                   openSockets: seq<FileSocket>, truths: map<string, Truth>, functions: Functions): (s: StateValue)
    ensures s.startingWorkingDir == workingDir && s.screen == ""
    ensures s.stdiosAbove == [] && s.workingDirsAbove == [] && s.variablesAbove == [] && s.functionsAbove == [] && s.screensAbove == []
  {
    StateValue(stdio, workingDir, variables, fs, openSockets, truths, functions, workingDir, [], [], [], [], [], "")
  }

  /** `State()` with every argument left out. */
  function DefaultState(): StateValue {
    Initial(FileSocket(0, "", ""), "~", map[], map[], [], map[], map[])
  }

  /** The file system a json list of files describes: each file under its name,
      a later file replacing an earlier one of the same name. */
  function FsOfList(files: seq<FileJson>): map<string, File>
    decreases |files|
  {
    if |files| == 0 then map[]
    else FsOfList(files[..|files| - 1])[files[|files| - 1].name := FileFromJson(files[|files| - 1])]
  }

  /** A name is in the converted table exactly when some file has it, and it maps to
      the last such file. */
  lemma {:induction false} FsOfListLastWins(files: seq<FileJson>, name: string)
    ensures name in FsOfList(files) <==> exists i :: 0 <= i < |files| && files[i].name == name
    ensures name in FsOfList(files) ==> exists i :: (0 <= i < |files| && files[i].name == name
      && FsOfList(files)[name] == FileFromJson(files[i])
      && forall j :: i < j < |files| ==> files[j].name != name)
    decreases |files|
  {
    if |files| > 0 {
      var init, last := files[..|files| - 1], files[|files| - 1];
      FsOfListLastWins(init, name);
      assert FsOfList(files) == FsOfList(init)[last.name := FileFromJson(last)];
      if last.name == name {
        assert files[|files| - 1].name == name && FsOfList(files)[name] == FileFromJson(files[|files| - 1]);
      } else {
        if name in FsOfList(init) {
          var i :| 0 <= i < |init| && init[i].name == name && FsOfList(init)[name] == FileFromJson(init[i])
            && forall j :: i < j < |init| ==> init[j].name != name;
          assert files[i] == init[i];
          forall j | i < j < |files| ensures files[j].name != name {
            if j < |init| {
              assert files[j] == init[j];
            }
          }
        }
        if exists i :: 0 <= i < |files| && files[i].name == name {
          var i :| 0 <= i < |files| && files[i].name == name;
          assert i < |init| && init[i] == files[i];
        }
      }
    }
  }

  /** The constructor's loop over a json list of files. */
  method FsFromList(files: seq<FileJson>) returns (fs: map<string, File>)
    ensures fs == FsOfList(files)
  {
    fs := map[];
    var i := 0;
    while i < |files|
      invariant 0 <= i <= |files|
      invariant fs == FsOfList(files[..i])
    {
      assert files[..i + 1][..i] == files[..i];
      fs := fs[files[i].name := FileFromJson(files[i])];
      i := i + 1;
    }
    assert files[..|files|] == files;
  }

  /** An operation of an inner scope that leaves the saved scopes alone. */
  datatype LocalOp =
    | SetVar(name: string, v: VarValue)
    | ChangeDir(dir: string)
    | WriteOut(text: string)
    | Print
    | StoreFile(name: string, contents: string)
    | StoreTruth(name: string, value: bool)
    | DefineFunctions(fns: Functions)

  function ApplyLocal(s: StateValue, op: LocalOp): StateValue {
    match op
    case SetVar(n, v) => s.SetVariable(n, v)
    case ChangeDir(d) => s.(workingDir := d)
    case WriteOut(t) => s.(stdio := s.stdio.Write(t))
    case Print => s.PrintToScreen()
    case StoreFile(n, c) => var r := s.UpdateFileSystem(n, c, DefaultPermissions, None); if r.Ok? then r.value else s
    case StoreTruth(n, b) => s.SetTruth(n, b)
    case DefineFunctions(f) => s.(functions := f)
  }

  function ApplyAll(s: StateValue, ops: seq<LocalOp>): StateValue
    decreases |ops|
  {
    if |ops| == 0 then s else ApplyAll(ApplyLocal(s, ops[0]), ops[1..])
  }

  lemma ApplyLocalKeepsStacks(s: StateValue, op: LocalOp)
    ensures var t := ApplyLocal(s, op);
      t.stdiosAbove == s.stdiosAbove && t.workingDirsAbove == s.workingDirsAbove
      && t.variablesAbove == s.variablesAbove && t.functionsAbove == s.functionsAbove
      && t.screensAbove == s.screensAbove && t.startingWorkingDir == s.startingWorkingDir
      && t.openSockets == s.openSockets
  {
  }

  /** Local operations leave the saved scopes and the start directory as they were. */
  lemma {:induction false} ApplyAllKeepsStacks(s: StateValue, ops: seq<LocalOp>)
    ensures var t := ApplyAll(s, ops);
      t.stdiosAbove == s.stdiosAbove && t.workingDirsAbove == s.workingDirsAbove
      && t.variablesAbove == s.variablesAbove && t.functionsAbove == s.functionsAbove
      && t.screensAbove == s.screensAbove && t.startingWorkingDir == s.startingWorkingDir
      && t.openSockets == s.openSockets
    decreases |ops|
  {
    if |ops| > 0 {
      ApplyLocalKeepsStacks(s, ops[0]);
      ApplyAllKeepsStacks(ApplyLocal(s, ops[0]), ops[1..]);
    }
  }

  /** Scope symmetry: whatever an inner scope does to its variables, functions,
      directory and socket is undone by `raise_scope`; what it printed is appended to
      the outer screen; its files and truths stay, because those are not scoped. */
  lemma ScopedChangesAreUndone(s: StateValue, ops: seq<LocalOp>)
    ensures var inner := ApplyAll(s.LowerScope(), ops);
      var t := inner.RaiseScope();
      t.variables == s.variables && t.functions == s.functions && t.workingDir == s.workingDir
      && t.stdio == s.stdio && t.screen == s.screen + inner.screen
      && t.fs == inner.fs && t.truths == inner.truths
      && t.stdiosAbove == s.stdiosAbove && t.workingDirsAbove == s.workingDirsAbove
      && t.variablesAbove == s.variablesAbove && t.functionsAbove == s.functionsAbove
      && t.screensAbove == s.screensAbove
  {
    ApplyAllKeepsStacks(s.LowerScope(), ops);
    var l := s.LowerScope();
    assert l.stdiosAbove[..|l.stdiosAbove| - 1] == s.stdiosAbove;
    assert l.workingDirsAbove[..|l.workingDirsAbove| - 1] == s.workingDirsAbove;
    assert l.variablesAbove[..|l.variablesAbove| - 1] == s.variablesAbove;
    assert l.functionsAbove[..|l.functionsAbove| - 1] == s.functionsAbove;
    assert l.screensAbove[..|l.screensAbove| - 1] == s.screensAbove;
  }

  /** `mv a b` with two names: the target gets the source's file and the source is gone. */
  lemma MoveFile(s: StateValue, a: string, b: string)
    requires a != b
    ensures var t := s.CopyFile(a, b).RemoveFile(a);
      a !in t.fs && b in t.fs
      && t.fs[b] == (if a in s.fs then s.fs[a] else File(a, Some(""), DefaultPermissions))
      && forall k :: k != a && k != b ==> (k in t.fs <==> k in s.fs) && (k in s.fs ==> t.fs[k] == s.fs[k])
  {
  }

  /** `mv a a` deletes the file: the copy lands on itself and the removal takes it. */
  lemma MoveOntoItself(s: StateValue, a: string)
    ensures a !in s.CopyFile(a, a).RemoveFile(a).fs
  {
  }

  /** `print_to_screen` is idempotent: the second call finds OUT empty. */
  lemma PrintTwice(s: StateValue)
    ensures s.PrintToScreen().PrintToScreen() == s.PrintToScreen()
  {
  }

  /** A stored truth is what `test_truth` finds afterwards, and only that entry changes. */
  lemma SetThenTestTruth(s: StateValue, name: string, other: string, value: bool)
    ensures s.SetTruth(name, value).TestTruth(name) == Some(Bool(value))
    ensures other != name ==> s.SetTruth(name, value).TestTruth(other) == s.TestTruth(other)
  {
  }

  /** Lowering a scope keeps the state equal in the sense of `State.__eq__`, which
      ignores the screen and the saved scopes. */
  lemma LowerScopeKeepsEquality(s: StateValue)
    ensures s.LowerScope().Equals(s)
    ensures s.Equals(s.(screen := "", functions := map[]))
  {
    assert forall i :: 0 <= i < |s.openSockets| ==> s.openSockets[i].Equals(s.openSockets[i]);
  }

  /** The state itself, kept as fields that the operations change in place. */
  class State {
    var stdio: FileSocket
    var workingDir: string
    var variables: Vars
    var fs: map<string, File>
    var openSockets: seq<FileSocket>
    var truths: map<string, Truth>
    var functions: Functions
    var startingWorkingDir: string
    var stdiosAbove: seq<FileSocket>
    var workingDirsAbove: seq<string>
    var variablesAbove: seq<Vars>
    var functionsAbove: seq<Functions>
    var screensAbove: seq<string>
    var screen: string

    function Value(): StateValue
      reads this
    {
      StateValue(stdio, workingDir, variables, fs, openSockets, truths, functions, startingWorkingDir,
                 stdiosAbove, workingDirsAbove, variablesAbove, functionsAbove, screensAbove, screen)
    }

    /** `State()`: every argument left at its default. */
    constructor ()
      ensures Value() == DefaultState()
    {
      stdio := FileSocket(0, "", "");
      workingDir := "~";
      variables := map[];
      fs := map[];
      openSockets := [];
      truths := map[];
      functions := map[];
      startingWorkingDir := "~";
      stdiosAbove := [];
      workingDirsAbove := [];
      variablesAbove := [];
      functionsAbove := [];
      screensAbove := [];
      screen := "";
    }

    /** `State(...)` loaded from json: the socket comes as a dictionary and the file
        system as a list of file dictionaries. */
    constructor FromJson(socket: SocketJson, dir: string, vars: Vars, files: seq<FileJson>,
                         sockets: seq<FileSocket>, storedTruths: map<string, Truth>)
      ensures Value() == Initial(SocketFromJson(socket), dir, vars, FsOfList(files), sockets, storedTruths, map[])
    {
      var table := FsFromList(files);
      stdio := SocketFromJson(socket);
      workingDir := dir;
      variables := vars;
      fs := table;
      openSockets := sockets;
      truths := storedTruths;
      functions := map[];
      startingWorkingDir := dir;
      stdiosAbove := [];
      workingDirsAbove := [];
      variablesAbove := [];
      functionsAbove := [];
      screensAbove := [];
      screen := "";
    }

    /** Puts a whole state value into the fields. */
    method Assign(v: StateValue)
      modifies this
      ensures Value() == v
    {
      AssignCurrent(v);
      AssignSaved(v);
    }

    /** The fields of the current scope, the file system and the sockets. */
    method AssignCurrent(v: StateValue)
      modifies this
      ensures stdio == v.stdio && workingDir == v.workingDir && variables == v.variables && fs == v.fs
      ensures openSockets == v.openSockets && truths == v.truths && functions == v.functions
      ensures startingWorkingDir == old(startingWorkingDir) && stdiosAbove == old(stdiosAbove)
      ensures workingDirsAbove == old(workingDirsAbove) && variablesAbove == old(variablesAbove)
      ensures functionsAbove == old(functionsAbove) && screensAbove == old(screensAbove) && screen == old(screen)
    {
      stdio, workingDir, variables, fs, openSockets, truths, functions :=
        v.stdio, v.workingDir, v.variables, v.fs, v.openSockets, v.truths, v.functions;
    }

    /** The starting directory, the saved scopes and the screen. */
    method AssignSaved(v: StateValue)
      modifies this
      ensures startingWorkingDir == v.startingWorkingDir && stdiosAbove == v.stdiosAbove
      ensures workingDirsAbove == v.workingDirsAbove && variablesAbove == v.variablesAbove
      ensures functionsAbove == v.functionsAbove && screensAbove == v.screensAbove && screen == v.screen
      ensures stdio == old(stdio) && workingDir == old(workingDir) && variables == old(variables) && fs == old(fs)
      ensures openSockets == old(openSockets) && truths == old(truths) && functions == old(functions)
    {
      startingWorkingDir, stdiosAbove, workingDirsAbove, variablesAbove, functionsAbove, screensAbove, screen :=
        v.startingWorkingDir, v.stdiosAbove, v.workingDirsAbove, v.variablesAbove, v.functionsAbove, v.screensAbove, v.screen;
    }

    method LowerScope()
      modifies this
      ensures Value() == old(Value()).LowerScope()
    {
      ghost var lowered := Value().LowerScope();
      screensAbove := screensAbove + [screen];
      stdiosAbove := stdiosAbove + [stdio];
      workingDirsAbove := workingDirsAbove + [workingDir];
      variablesAbove := variablesAbove + [variables];
      functionsAbove := functionsAbove + [functions];
      screen := "";
      assert Value() == lowered;
    }

    method RaiseScope()
      modifies this
      ensures Value() == old(Value()).RaiseScope()
    {
      PopStdio();
      PopWorkingDir();
      PopVariables();
      PopFunctions();
      PopScreen();
    }

    method PopStdio()
      modifies this
      ensures Value() == old(Value()).PopStdio()
    {
      if |stdiosAbove| > 0 {
        stdio := stdiosAbove[|stdiosAbove| - 1];
        stdiosAbove := stdiosAbove[..|stdiosAbove| - 1];
      }
    }

    method PopWorkingDir()
      modifies this
      ensures Value() == old(Value()).PopWorkingDir()
    {
      if |workingDirsAbove| > 0 {
        workingDir := workingDirsAbove[|workingDirsAbove| - 1];
        workingDirsAbove := workingDirsAbove[..|workingDirsAbove| - 1];
      }
    }

    method PopVariables()
      modifies this
      ensures Value() == old(Value()).PopVariables()
    {
      if |variablesAbove| > 0 {
        variables := variablesAbove[|variablesAbove| - 1];
        variablesAbove := variablesAbove[..|variablesAbove| - 1];
      }
    }

    method PopFunctions()
      modifies this
      ensures Value() == old(Value()).PopFunctions()
    {
      if |functionsAbove| > 0 {
        functions := functionsAbove[|functionsAbove| - 1];
        functionsAbove := functionsAbove[..|functionsAbove| - 1];
      }
    }

    method PopScreen()
      modifies this
      ensures Value() == old(Value()).PopScreen()
    {
      if |screensAbove| > 0 {
        screen := screensAbove[|screensAbove| - 1] + screen;
        screensAbove := screensAbove[..|screensAbove| - 1];
      }
    }

    method EnterSubshell()
      modifies this
      ensures Value() == old(Value()).EnterSubshell()
    {
      LowerScope();
      stdio := FileSocket(0, "", "");
      workingDir := startingWorkingDir;
    }

    method ExitSubshell()
      modifies this
      ensures Value() == old(Value()).RaiseScope()
    {
      RaiseScope();
    }

    /** Stores a file; an empty name is reported as the source's IndexError and
        changes nothing. */
    method UpdateFileSystem(name: string, contents: string, permissions: string, location: Option<string>) returns (err: Option<PyError>)
      modifies this
      ensures var r := old(Value()).UpdateFileSystem(name, contents, permissions, location);
        (r.Ok? ==> err.None? && Value() == r.value) && (r.Err? ==> err == Some(r.error) && Value() == old(Value()))
    {
      var loc := if location.Some? then location.value else workingDir;
      if |name| == 0 {
        return Some(IndexError);
      }
      var path := name;
      if !(path[0] == '~' || path[0] == '/') {
        if |path| >= 2 && path[..2] == "./" {
          path := path[2..];
        }
        path := loc + "/" + path;
      }
      if path[|path| - 1] == '/' {
        path := path[..|path| - 1];
      }
      fs := fs[path := File(path, Some(contents), permissions)];
      err := None;
    }

    method SetVariable(name: string, v: VarValue)
      modifies this
      ensures Value() == old(Value()).SetVariable(name, v)
    {
      variables := variables[name := ValueItems(v)];
    }

    method UpdateVariableList(bp: Bashparser, node: Node)
      modifies this
      ensures Value() == old(Value()).UpdateVariableList(bp, node)
    {
      variables := bp.updateVariableList(node, variables);
    }

    /** The source's `while` loop; on the KeyError nothing is left changed except what
        the loop already moved, which the source leaves behind as well. */
    method ShiftVariables() returns (err: Option<PyError>)
      modifies this
      ensures var r := ShiftFrom(old(variables), 1);
        (r.Ok? ==> err.None? && Value() == old(Value()).(variables := r.value))
        && (r.Err? ==> err == Some(KeyError) && Value() == old(Value()).(variables := variables))
    {
      var i: nat := 1;
      while Positional(i + 1) in variables
        invariant i >= 1
        invariant ShiftFrom(variables, i) == ShiftFrom(old(variables), 1)
        invariant Value() == old(Value()).(variables := variables)
        decreases ShiftMeasure(variables, i)
      {
        ShiftStepDecreases(variables, i);
        variables := variables[Positional(i) := variables[Positional(i + 1)]];
        i := i + 1;
      }
      if Positional(i) in variables {
        variables := variables - {Positional(i)};
        err := None;
      } else {
        err := Some(KeyError);
      }
    }

    method SetTruth(name: string, value: bool)
      modifies this
      ensures Value() == old(Value()).SetTruth(name, value)
    {
      truths := truths[name := Bool(value)];
    }

    function TestTruth(name: string): (t: Option<Truth>)
      reads this
      ensures t == Value().TestTruth(name)
    {
      if name in truths then Some(truths[name]) else None
    }

    /** `unset_functions`: the outer-scope loop runs first and fails on a held name. */
    method UnsetFunctions(name: string) returns (r: Result<bool>)
      modifies this
      ensures var e := old(Value()).UnsetFunctions(name);
        (e.Ok? ==> r == Ok(e.value.1) && Value() == e.value.0) && (e.Err? ==> r == Err(e.error) && Value() == old(Value()))
    {
      var k := 0;
      while k < |functionsAbove|
        invariant 0 <= k <= |functionsAbove|
        invariant forall m :: 0 <= m < k ==> name !in functionsAbove[m]
      {
        if name in functionsAbove[k] {
          return Err(TypeError);
        }
        k := k + 1;
      }
      var unset := name in functions;
      functions := functions - {name};
      r := Ok(unset);
    }

    method UnsetVariables(name: string) returns (r: Result<bool>)
      modifies this
      ensures var e := old(Value()).UnsetVariables(name);
        (e.Ok? ==> r == Ok(e.value.1) && Value() == e.value.0) && (e.Err? ==> r == Err(e.error) && Value() == old(Value()))
    {
      var k := 0;
      while k < |variablesAbove|
        invariant 0 <= k <= |variablesAbove|
        invariant forall m :: 0 <= m < k ==> name !in variablesAbove[m]
      {
        if name in variablesAbove[k] {
          return Err(TypeError);
        }
        k := k + 1;
      }
      var unset := name in variables;
      variables := variables - {name};
      r := Ok(unset);
    }

    /** `STDIN(IN)`: returns IN after the optional update. */
    method Stdin(v: Option<string>) returns (current: string)
      modifies this
      ensures Value() == old(Value()).SetStdin(v) && current == stdio.IN
    {
      if v.Some? {
        stdio := stdio.(IN := v.value);
      }
      current := stdio.IN;
    }

    /** `STDOUT(OUT)`: returns OUT after the optional update. */
    method Stdout(v: Option<string>) returns (current: string)
      modifies this
      ensures Value() == old(Value()).SetStdout(v) && current == stdio.OUT
    {
      if v.Some? {
        stdio := stdio.(OUT := v.value);
      }
      current := stdio.OUT;
    }

    /** `STDIO.write(text)`. */
    method Write(text: string)
      modifies this
      ensures Value() == old(Value()).(stdio := old(stdio).Write(text))
    {
      stdio := stdio.Write(text);
    }

    /** `STDIO.read()`. */
    method Read() returns (text: string)
      modifies this
      ensures text == old(stdio).IN
      ensures Value() == old(Value()).(stdio := old(stdio).Read().0)
    {
      var r := stdio.Read();
      stdio := r.0;
      text := r.1;
    }

    /** `STDIO.transfer()`. */
    method Transfer()
      modifies this
      ensures Value() == old(Value()).(stdio := old(stdio).Transfer())
    {
      stdio := stdio.Transfer();
    }

    method PrintToScreen()
      modifies this
      ensures Value() == old(Value()).PrintToScreen()
    {
      if stdio.OUT != "" {
        screen := screen + stdio.OUT + "\n";
        stdio := stdio.(OUT := "");
      }
    }

    method ClearScreen()
      modifies this
      ensures Value() == old(Value()).ClearScreen()
    {
      screen := "";
    }

    function GetScreen(): string
      reads this
    {
      screen
    }

    method CopyFile(source: string, target: string)
      modifies this
      ensures Value() == old(Value()).CopyFile(source, target)
    {
      if source !in fs {
        fs := fs[source := File(source, Some(""), DefaultPermissions)];
      }
      fs := fs[target := fs[source]];
    }

    method RemoveFile(name: string)
      modifies this
      ensures Value() == old(Value()).RemoveFile(name)
    {
      if name in fs {
        fs := fs - {name};
      }
    }

    method BuildFunctions(bp: Bashparser, node: Node)
      modifies this
      ensures Value() == old(Value()).BuildFunctions(bp, node)
    {
      functions := bp.buildFnTable(node, functions);
    }

    function ResolveFunctions(bp: Bashparser, node: Node): (r: Result<Node>)
      reads this
      ensures r == Value().ResolveFunctions(bp, node)
    {
      var ns := bp.resolveFunctions(node, functions, variables);
      if |ns| == 0 then Err(IndexError) else Ok(ns[0])
    }

    predicate Equals(other: State)
      reads this, other
    {
      Value().Equals(other.Value())
    }
  }
}
