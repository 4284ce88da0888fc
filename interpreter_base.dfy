/**
 * `InterpreterBase`: the object that owns a `State`, the queue of pending
 * actions and the `execute` flag, and that compiles nodes into the queue
 * (`build`) and runs the front action (`inch`) or the whole queue (`run`).
 *
 * Its fields hold what the engine's `Machine` value describes; every method
 * here is proved to leave the fields as the engine's function of the old
 * value says. The cells are the command nodes that command substitution
 * rewrites in place.
 */
module Interpreting {
  import opened Wrappers
  import opened PyStr
  import opened FileSystem
  import opened BashAst
  import opened Primitives
  import opened Actions
  import opened Engine

  /** The `execute` entry of the json form. */
  function ExecuteJson(execute: bool): (t: string)
    ensures t == "t" || t == "f"
    ensures t == "t" <==> execute
  {
    if execute then "t" else "f"
  }

  /** The constructor's `execute` argument: a string (from json) means true exactly
      when it is "t". */
  function ExecuteFlag(execute: Truth): (b: bool)
    ensures execute.Bool? ==> b == execute.b
    ensures execute.Str? ==> (b <==> execute.s == "t")
  {
    match execute
    case Bool(v) => v
    case Str(s) => s == "t"
  }

  /** Writing the flag to json and loading it back gives the flag. */
  lemma ExecuteJsonRoundTrip(execute: bool)
    ensures ExecuteFlag(Str(ExecuteJson(execute))) == execute
  {
  }

  /** `set_truth`'s argument: a string counts as true when its lower-case form is
      "t" or "true". */
  function TruthValue(value: Truth): (b: bool)
    ensures value.Bool? ==> b == value.b
  {
    match value
    case Bool(v) => v
    case Str(s) => Lower(s) == "t" || Lower(s) == "true"
  }

  lemma {:induction false} LowerIdempotent(s: string)
    ensures Lower(Lower(s)) == Lower(s)
  {
    var l := Lower(s);
    forall i | 0 <= i < |s|
      ensures Lower(l)[i] == l[i]
    {
      assert !('A' <= l[i] <= 'Z');
    }
  }

  /** The coercion ignores case: a string and its lower-case form give the same truth,
      and every spelling of "t" and "true" is true. */
  lemma TruthValueIgnoresCase(s: string)
    ensures TruthValue(Str(s)) == TruthValue(Str(Lower(s)))
    ensures TruthValue(Str(s)) <==> Lower(s) in ["t", "true"]
    ensures TruthValue(Str("TRUE")) && TruthValue(Str("True")) && TruthValue(Str("T"))
    ensures !TruthValue(Str("f")) && !TruthValue(Str("yes")) && !TruthValue(Str(""))
  {
    LowerIdempotent(s);
    assert Lower("TRUE") == "true";
    assert Lower("True") == "true";
    assert Lower("T") == "t";
    assert Lower("f") == "f";
    assert Lower("yes") == "yes";
  }

  /** `InterpreterBase.__eq__`: the queues have the same descriptions in the same
      order, the `execute` flags agree and the states are equal. */
  predicate SameMachine(a: Machine, b: Machine) {
    SameStack(a.stack, b.stack) && a.env.execute == b.env.execute && a.env.state.Equals(b.env.state)
  }

  lemma StateEqualsIsEquivalence(a: StateValue, b: StateValue, c: StateValue)
    ensures a.Equals(a)
    ensures a.Equals(b) ==> b.Equals(a)
    ensures a.Equals(b) && b.Equals(c) ==> a.Equals(c)
  {
  }

  /** Equality of interpreters is an equivalence, and it ignores the cells. */
  lemma SameMachineIsEquivalence(a: Machine, b: Machine, c: Machine)
    ensures SameMachine(a, a)
    ensures SameMachine(a, b) ==> SameMachine(b, a)
    ensures SameMachine(a, b) && SameMachine(b, c) ==> SameMachine(a, c)
    ensures SameMachine(a, a.(env := a.env.(cells := c.env.cells)))
  {
    StateEqualsIsEquivalence(a.env.state, b.env.state, c.env.state);
    SameStackIsEquivalence(a.stack, b.stack, c.stack);
  }

  /** `run(node)`: build the node (when one is given, discarding the queue), then
      take actions off the front until the queue is empty, an action raises, or
      `fuel` actions have run. */
  function RunNode(bp: Bashparser, op: Operator, node: Option<Node>, m: Machine, fuel: nat): (o: Outcome)
    ensures node.None? && |m.stack| == 0 ==> o == Fine(m)
    ensures node.None? ==> o == RunFuel(bp, op, m, fuel)
    ensures Shaped(m.env.cells, o.m.env.cells)
    ensures (node.None? ==> Grounded(m.stack, m.env.cells)) ==> Grounded(o.m.stack, o.m.env.cells)
  {
    var b := if node.Some? then Engine.Build(bp, node.value, false, m) else Fine(m);
    PrefixShaped(m.env.cells, b.m.env.cells);
    if b.err.Some? then b
    else
      var o := RunFuel(bp, op, b.m, fuel);
      ShapedTransitive(m.env.cells, b.m.env.cells, o.m.env.cells);
      o
  }

  class Interpreter {
    var state: State
    var actionStack: seq<Action>
    var cells: seq<Node>
    var execute: bool

    function Value(): Machine
      reads this, state
    {
      Machine(Env(state.Value(), cells, execute), actionStack)
    }

    /** `InterpreterBase(...)`: a state holding the arguments and an empty queue. */
    constructor (stdio: FileSocket, workingDir: string, variables: Vars, fs: map<string, File>,
                 openSockets: seq<FileSocket>, truths: map<string, Truth>, executeArg: Truth)
      ensures fresh(state)
      ensures Value() == Machine(Env(Initial(stdio, workingDir, variables, fs, openSockets, truths, map[]), [], ExecuteFlag(executeArg)), [])
    {
      var s := new State();
      s.Assign(Initial(stdio, workingDir, variables, fs, openSockets, truths, map[]));
      state := s;
      actionStack := [];
      cells := [];
      execute := ExecuteFlag(executeArg);
    }

    /** `copy.deepcopy(self)`: a new interpreter and a new state with the same value. */
    method Copy() returns (c: Interpreter)
      ensures fresh(c) && fresh(c.state)
      ensures c.Value() == Value()
    {
      var v := Value();
      c := new Interpreter(FileSocket(0, "", ""), "~", map[], map[], [], map[], Bool(true));
      c.Load(v);
    }

    /** Puts a whole machine value into the fields. */
    method Load(m: Machine)
      modifies this, state
      ensures state == old(state)
      ensures Value() == m
    {
      state.Assign(m.env.state);
      cells := m.env.cells;
      execute := m.env.execute;
      actionStack := m.stack;
    }

    /** `build(node, append)`: the queue is emptied unless appending, then the start
        action, the node's actions and the clean-up action are appended. */
    method Build(bp: Bashparser, node: Node, append: bool) returns (err: Option<PyError>)
      modifies this, state
      ensures state == old(state)
      ensures var o := Engine.Build(bp, node, append, old(Value()));
        Value() == o.m && err == o.err
    {
      if !append {
        actionStack := [];
      }
      actionStack := actionStack + [InitializeCommand];
      var c := Compile(bp, node, Env(state.Value(), cells, execute));
      state.Assign(c.env.state);
      cells := c.env.cells;
      execute := c.env.execute;
      actionStack := actionStack + c.actions;
      if c.err.Some? {
        return c.err;
      }
      actionStack := actionStack + [ExitNodeCleanup];
      err := None;
    }

    /** `inch()`: on an empty queue nothing happens and the answer is false; otherwise
        the front action is removed and called, and the answer is true. */
    method Inch(bp: Bashparser, op: Operator) returns (progressed: bool, err: Option<PyError>)
      modifies this, state
      ensures state == old(state)
      ensures progressed <==> |old(actionStack)| > 0
      ensures !progressed ==> Value() == old(Value()) && err.None?
      ensures progressed ==> var o := Step(bp, op, old(Value())); Value() == o.m && err == o.err
    {
      if |actionStack| == 0 {
        return false, None;
      }
      var front := actionStack[0];
      actionStack := actionStack[1..];
      var o := Exec(bp, op, front, Value());
      Load(o.m);
      progressed, err := true, o.err;
    }

    /** `run(node)`, with the loop bounded by `fuel`. */
    method Run(bp: Bashparser, op: Operator, node: Option<Node>, fuel: nat) returns (err: Option<PyError>)
      modifies this, state
      ensures state == old(state)
      ensures var o := RunNode(bp, op, node, old(Value()), fuel);
        Value() == o.m && err == o.err
    {
      if node.Some? {
        err := Build(bp, node.value, false);
        if err.Some? {
          return;
        }
      }
      ghost var built := Value();
      var left := fuel;
      while |actionStack| > 0 && left > 0
        invariant state == old(state)
        invariant RunFuel(bp, op, Value(), left) == RunFuel(bp, op, built, fuel)
        decreases left
      {
        ghost var before := Value();
        var progressed, e := Inch(bp, op);
        left := left - 1;
        if e.Some? {
          assert RunFuel(bp, op, before, left + 1) == Step(bp, op, before);
          return e;
        }
      }
      err := None;
    }

    /** `set_variable(name, value)`: a single string is stored as a one-element list. */
    method SetVariable(name: string, value: VarValue)
      modifies state
      ensures Value() == WithState(old(Value()), old(state.Value()).SetVariable(name, value))
    {
      state.SetVariable(name, value);
    }

    /** `set_truth(name, value)`, with a string value coerced by `TruthValue`. */
    method SetTruth(name: string, value: Truth)
      modifies state
      ensures Value() == WithState(old(Value()), old(state.Value()).SetTruth(name, TruthValue(value)))
      ensures state.TestTruth(name) == Some(Bool(TruthValue(value)))
    {
      state.SetTruth(name, TruthValue(value));
    }

    method ShiftVariables() returns (err: Option<PyError>)
      modifies state
      ensures var r := old(state.Value()).ShiftVariables();
        (r.Ok? ==> err.None? && Value() == WithState(old(Value()), r.value))
        && (r.Err? ==> err == Some(r.error) && Value().stack == old(Value()).stack)
    {
      err := state.ShiftVariables();
    }

    /** `update_file_system(name, contents, permissions, location)`. */
    method UpdateFileSystem(name: string, contents: string, permissions: string, location: Option<string>) returns (err: Option<PyError>)
      modifies state
      ensures var r := old(state.Value()).UpdateFileSystem(name, contents, permissions, location);
        (r.Ok? ==> err.None? && Value() == WithState(old(Value()), r.value))
        && (r.Err? ==> err == Some(r.error) && Value() == old(Value()))
    {
      err := state.UpdateFileSystem(name, contents, permissions, location);
    }

    /** `stdin(IN)`: sets IN when given, and returns IN. */
    method Stdin(v: Option<string>) returns (current: string)
      modifies state
      ensures Value() == WithState(old(Value()), old(state.Value()).SetStdin(v))
      ensures current == state.stdio.IN && (v.Some? ==> current == v.value)
    {
      current := state.Stdin(v);
    }

    /** `stdout(OUT)`: sets OUT when given, and returns OUT. */
    method Stdout(v: Option<string>) returns (current: string)
      modifies state
      ensures Value() == WithState(old(Value()), old(state.Value()).SetStdout(v))
      ensures current == state.stdio.OUT && (v.Some? ==> current == v.value)
    {
      current := state.Stdout(v);
    }

    /** `working_dir(dir)`: sets the working directory when given, and returns it. */
    method WorkingDir(dir: Option<string>) returns (current: string)
      modifies state
      ensures Value() == WithState(old(Value()), if dir.Some? then old(state.Value()).(workingDir := dir.value) else old(state.Value()))
      ensures current == state.workingDir
    {
      if dir.Some? {
        state.workingDir := dir.value;
      }
      current := state.workingDir;
    }

    method EnterSubshell()
      modifies state
      ensures Value() == WithState(old(Value()), old(state.Value()).EnterSubshell())
    {
      state.EnterSubshell();
    }

    method ClearScreen()
      modifies state
      ensures Value() == WithState(old(Value()), old(state.Value()).ClearScreen())
    {
      state.ClearScreen();
    }

    function GetScreen(): string
      reads this, state
    {
      state.screen
    }

    /** `test_truth(name)` and `get_truth(name)`. */
    function TestTruth(name: string): (t: Option<Truth>)
      reads this, state
      ensures t.Some? <==> name in state.truths
      ensures t.Some? ==> t.value == state.truths[name]
    {
      state.TestTruth(name)
    }

    predicate Equals(other: Interpreter): (r: bool)
      reads this, state, other, other.state
      ensures r ==> |actionStack| == |other.actionStack| && execute == other.execute
    {
      SameMachine(Value(), other.Value())
    }
  }
}
