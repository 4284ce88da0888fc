/**
 * The engine of `InterpreterBase`: compiling a syntax tree into a queue of
 * actions (`interpreter`, `resolve_command_substitution`, `run_command`) and
 * running the front action of the queue (`inch`). Several actions compile more
 * nodes while they run and put the result in front of what is still pending:
 * the gate of an `if` clause, a condition the operator asks to execute, a
 * command substitution, and a call of a user function.
 *
 * Compilation may change the state (a `for` loop fills and then drops its
 * iterator variable, a function definition fills the function table), the
 * cells holding command nodes, and the `execute` flag; `Env` is that part.
 */
module Engine {
  import opened Wrappers
  import opened PyStr
  import opened FileSystem
  import opened BashAst
  import opened Primitives
  import opened Actions
  import Builtins

  datatype Env = Env(state: StateValue, cells: seq<Node>, execute: bool)

  /** The actions a compilation queued, the environment it left, and the exception
      that stopped it, if any (the actions queued before it stay queued). */
  datatype Compiled = Compiled(actions: seq<Action>, env: Env, err: Option<PyError>)

  function Emit(actions: seq<Action>, env: Env): Compiled { Compiled(actions, env, None) }

  function Fail(actions: seq<Action>, env: Env, e: PyError): Compiled { Compiled(actions, env, Some(e)) }

  /** Whether the cell an action names exists and has the part it names: what
      the source's direct references to command nodes guarantee. */
  predicate Refers(a: Action, cells: seq<Node>) {
    match a
    case ExitCmdSub(cell, word, _, _, _) => cell < |cells| && word < |cells[cell].parts|
    case CommandNode(cell, _, _) => cell < |cells| && |cells[cell].parts| > 0
    case VariableAssignment(cell, _) => cell < |cells| && |cells[cell].parts| > 0
    case _ => true
  }

  predicate Grounded(acts: seq<Action>, cells: seq<Node>) {
    forall i :: 0 <= i < |acts| ==> Refers(acts[i], cells)
  }

  lemma GroundedThen(first: seq<Action>, cells: seq<Node>, next: Compiled)
    requires cells <= next.env.cells && Grounded(next.actions, next.env.cells)
    ensures Grounded(first, cells) ==> Grounded(first + next.actions, next.env.cells)
  {
    if Grounded(first, cells) {
      forall i | 0 <= i < |first| ensures Refers(first[i], next.env.cells) {
        assert Refers(first[i], cells);
      }
    }
  }

  /** `first`, followed by what `next` queued. */
  function Then(first: seq<Action>, next: Compiled): (c: Compiled)
    ensures c.actions == first + next.actions && c.env == next.env && c.err == next.err
  {
    next.(actions := first + next.actions)
  }

  /** `interpreter(node)`: the actions for one node, by its kind. */
  function Compile(bp: Bashparser, node: Node, env: Env): (c: Compiled)
    decreases node, 4
    ensures env.cells <= c.env.cells
    ensures Grounded(c.actions, c.env.cells)
  {
    if node.kind == "pipeline" then CompilePipeline(bp, node, 0, env)
    else if node.kind == "command" then
      (if |node.parts| == 0 then Fail([], env, IndexError) else CompileCommand(bp, node, env))
    else if node.kind == "compound" then CompileCompound(bp, node, env)
    else if node.kind == "list" then
      Then([Flush(ListEntry)], CompileListParts(bp, node, 0, env.(execute := true)))
    else if node.kind == "for" then CompileFor(bp, node, env)
    else if node.kind == "if" then CompileIf(bp, node.parts, [], env)
    else if node.kind == "reservedword" then
      (if node.word == Some("(") then Emit([EnterSubshellEnv], env)
       else if node.word == Some(")") then Emit([ExitSubshellEnv], env)
       else Fail([], env, ValueError("Invalid Resevered Word Node type in bashparser interpreter: " + node.kind)))
    else if node.kind == "function" then Emit([], env.(state := env.state.BuildFunctions(bp, node)))
    else Fail([], env, ValueError("Invalid Node type in bashparser interpreter: " + node.kind))
  }

  /** The nodes one after the other, each in the environment the previous one left. */
  function CompileNodes(bp: Bashparser, nodes: seq<Node>, env: Env): (c: Compiled)
    decreases nodes, 0
    ensures env.cells <= c.env.cells
    ensures Grounded(c.actions, c.env.cells)
  {
    if |nodes| == 0 then Emit([], env)
    else
      var first := Compile(bp, nodes[0], env);
      if first.err.Some? then first
      else
        var rest := CompileNodes(bp, nodes[1..], first.env);
        GroundedThen(first.actions, first.env.cells, rest);
        Then(first.actions, rest)
  }

  /** A pipeline: the stages at even positions, a transfer for each pipe between them. */
  function CompilePipeline(bp: Bashparser, node: Node, i: nat, env: Env): (c: Compiled)
    decreases node, 3, |node.parts| - i
    ensures env.cells <= c.env.cells
    ensures Grounded(c.actions, c.env.cells)
  {
    if i >= |node.parts| then Emit([], env)
    else if i % 2 != 0 then Then([PipelineTransfer], CompilePipeline(bp, node, i + 1, env))
    else
      var stage := Compile(bp, node.parts[i], env);
      if stage.err.Some? then stage
      else
        var rest := CompilePipeline(bp, node, i + 1, stage.env);
        GroundedThen(stage.actions, stage.env.cells, rest);
        Then(stage.actions, rest)
  }

  /** A list: a reset before each command, a separator action for each operator. */
  function CompileListParts(bp: Bashparser, node: Node, i: nat, env: Env): (c: Compiled)
    decreases node, 3, |node.parts| - i
    ensures env.cells <= c.env.cells
    ensures Grounded(c.actions, c.env.cells)
  {
    if i >= |node.parts| then Emit([], env)
    else if i % 2 != 0 then
      (if node.parts[i].op.None? then Fail([], env, AttributeError)
       else Then([ListSeparator(node.parts[i].op.value)], CompileListParts(bp, node, i + 1, env)))
    else
      var cmd := Compile(bp, node.parts[i], env);
      if cmd.err.Some? then Then([Flush(NewCommand)], cmd)
      else
        var rest := CompileListParts(bp, node, i + 1, cmd.env);
        GroundedThen([Flush(NewCommand)] + cmd.actions, cmd.env.cells, rest);
        Then([Flush(NewCommand)] + cmd.actions, rest)
  }

  /** The last redirect of the given type, the one the source's reversed search finds first. */
  function LastRedirect(rs: seq<Redirect>, t: string): (r: Option<Redirect>)
    ensures r.Some? ==> r.value in rs && r.value.rtype == t
    ensures r.None? ==> forall k :: 0 <= k < |rs| ==> rs[k].rtype != t
    ensures r.Some? ==> exists k :: 0 <= k < |rs| && rs[k] == r.value && forall j :: k < j < |rs| ==> rs[j].rtype != t
    decreases |rs|
  {
    if |rs| == 0 then None
    else if rs[|rs| - 1].rtype == t then Some(rs[|rs| - 1])
    else LastRedirect(rs[..|rs| - 1], t)
  }

  /** A compound node: with redirects, the screen is saved, the last "<" loads
      input, the last ">" stores the output and the screen is restored. */
  function CompileCompound(bp: Bashparser, node: Node, env: Env): (c: Compiled)
    decreases node, 3
    ensures env.cells <= c.env.cells
    ensures Grounded(c.actions, c.env.cells)
  {
    var redirected := |node.redirects| > 0;
    var load := LastRedirect(node.redirects, "<");
    var save := LastRedirect(node.redirects, ">");
    var pre := if !redirected then [] else [PrepareRedirects] + (if load.Some? then [LoadRedirect(load.value)] else []);
    var post := if !redirected then [] else (if save.Some? then [SaveRedirect(save.value)] else []) + [ExitRedirects];
    var body := CompileNodes(bp, node.list, env);
    if body.err.Some? then Then(pre, body) else Emit(pre + body.actions + post, body.env)
  }

  /** The position of the first part whose word is "do". */
  function DoIndex(parts: seq<Node>): (r: Option<nat>)
    ensures r.Some? ==> r.value < |parts| && parts[r.value].word == Some("do")
    ensures r.Some? ==> forall k :: 0 <= k < r.value ==> parts[k].word != Some("do")
    ensures r.None? ==> forall k :: 0 <= k < |parts| ==> parts[k].word != Some("do")
    decreases |parts|
  {
    if |parts| == 0 then None
    else if parts[0].word == Some("do") then Some(0)
    else
      var r := DoIndex(parts[1..]);
      if r.None? then None else Some(r.value + 1)
  }

  /** A `for` node. The variable table gets the loop's values at compile time, the
      body (after "do", without the final "done") is compiled once for each value,
      and the iterator is dropped from the table again. */
  function CompileFor(bp: Bashparser, node: Node, env: Env): (c: Compiled)
    decreases node, 3
    ensures env.cells <= c.env.cells
    ensures Grounded(c.actions, c.env.cells)
  {
    var e1 := env.(state := env.state.UpdateVariableList(bp, node));
    var entry := [Flush(ForEntry)];
    if |node.parts| < 2 then Fail(entry, e1, IndexError)
    else if node.parts[1].word.None? then Fail(entry, e1, AttributeError)
    else
      var name := node.parts[1].word.value;
      if name !in e1.state.variables then Fail(entry, e1, KeyError)
      else
        var d := DoIndex(node.parts);
        if d.None? then Fail(entry, e1, IndexError)
        else
          var hi := if d.value + 1 < |node.parts| then |node.parts| - 1 else d.value + 1;
          var loop := CompileIterations(bp, node, d.value + 1, hi, name, e1.state.variables[name], e1);
          if loop.err.Some? then Then(entry, loop)
          else if name !in loop.env.state.variables then Fail(entry + loop.actions, loop.env, KeyError)
          else
            var s := loop.env.state;
            Emit(entry + loop.actions + [Flush(ForExit)], loop.env.(state := s.(variables := s.variables - {name})))
  }

  /** One iteration per value: set the iterator, the body `node.parts[lo..hi]`, and a flush. */
  function CompileIterations(bp: Bashparser, node: Node, lo: nat, hi: nat, name: string, values: seq<string>, env: Env): (c: Compiled)
    requires lo <= hi <= |node.parts|
    decreases node, 2, |values|
    ensures env.cells <= c.env.cells
    ensures Grounded(c.actions, c.env.cells)
  {
    if |values| == 0 then Emit([], env)
    else
      var b := CompileRange(bp, node, lo, hi, env);
      if b.err.Some? then Then([SetLoopIterator(name, values[0])], b)
      else
        var rest := CompileIterations(bp, node, lo, hi, name, values[1..], b.env);
        GroundedThen([SetLoopIterator(name, values[0])] + b.actions + [Flush(ForIterate)], b.env.cells, rest);
        Then([SetLoopIterator(name, values[0])] + b.actions + [Flush(ForIterate)], rest)
  }

  /** The parts `node.parts[lo..hi]` one after the other. */
  function CompileRange(bp: Bashparser, node: Node, lo: nat, hi: nat, env: Env): (c: Compiled)
    requires lo <= hi <= |node.parts|
    decreases node, 1, hi - lo
    ensures env.cells <= c.env.cells
    ensures Grounded(c.actions, c.env.cells)
  {
    if lo == hi then Emit([], env)
    else
      var first := Compile(bp, node.parts[lo], env);
      if first.err.Some? then first
      else
        var rest := CompileRange(bp, node, lo + 1, hi, first.env);
        GroundedThen(first.actions, first.env.cells, rest);
        Then(first.actions, rest)
  }

  /** How many leading parts are not reserved words: the body of a clause. */
  function BodyLength(parts: seq<Node>): (n: nat)
    ensures n <= |parts|
    ensures forall k :: 0 <= k < n ==> parts[k].kind != "reservedword"
    ensures n < |parts| ==> parts[n].kind == "reservedword"
    decreases |parts|
  {
    if |parts| == 0 || parts[0].kind == "reservedword" then 0 else 1 + BodyLength(parts[1..])
  }

  /** An `if` node, clause by clause: "if"/"elif" with a condition and "then", or
      "else", then the body up to the next reserved word, which is dropped when it
      is "fi". Each clause queues a truth action and a gate that knows the conditions
      of the clauses before it. */
  function CompileIf(bp: Bashparser, parts: seq<Node>, earlier: seq<string>, env: Env): (c: Compiled)
    decreases |parts|
    ensures env.cells <= c.env.cells
    ensures Grounded(c.actions, c.env.cells)
  {
    if |parts| == 0 then Emit([], env)
    else if parts[0].word.None? then Fail([], env, AttributeError)
    else
      var isElse := parts[0].word == Some("else");
      var rest := parts[1..];
      if !isElse && |rest| < 2 then Fail([], env, IndexError)
      else
        var cond := if isElse then "" else bp.render(rest[0]);
        var tail := if isElse then rest else rest[2..];
        var n := BodyLength(tail);
        var after := tail[n..];
        if |after| == 0 then Fail([], env, IndexError)
        else if after[0].word.None? then Fail([], env, AttributeError)
        else
          var next := if after[0].word == Some("fi") then after[1..] else after;
          var truth := if isElse then ElseTruth else FindTruth(cond);
          var gate := [truth, GateClause(cond, tail[..n], earlier, isElse)];
          var more := CompileIf(bp, next, if |cond| > 0 then earlier + [cond] else earlier, env);
          assert Grounded(gate, env.cells);
          GroundedThen(gate, env.cells, more);
          Then(gate, more)
  }

  /** The two actions of every command substitution among a word's parts, from the
      last part back to the first; each knows the position of its part. */
  function CmdSubsOfWord(bp: Bashparser, cell: nat, j: nat, w: Node, k: nat): (acts: seq<Action>)
    requires k <= |w.parts|
    ensures |acts| % 2 == 0
    ensures forall i :: 0 <= i < |acts| ==> acts[i].EnterCmdSub? || (acts[i].ExitCmdSub? && acts[i].cell == cell && acts[i].word == j)
    decreases k
  {
    if k == 0 then []
    else
      var p := w.parts[k - 1];
      (if p.kind == "commandsubstitution"
       then [EnterCmdSub(p, bp.render(w)), ExitCmdSub(cell, j, p, k - 1, bp.render(w))]
       else [])
      + CmdSubsOfWord(bp, cell, j, w, k - 1)
  }

  /** `resolve_command_substitution` for every part of a command node, in order. */
  function CmdSubsOfParts(bp: Bashparser, cell: nat, parts: seq<Node>, j: nat): (acts: seq<Action>)
    decreases |parts| - j
    ensures forall i :: 0 <= i < |acts| ==> acts[i].EnterCmdSub? || (acts[i].ExitCmdSub? && acts[i].cell == cell && j <= acts[i].word < |parts|)
  {
    if j >= |parts| then []
    else CmdSubsOfWord(bp, cell, j, parts[j], |parts[j].parts|) + CmdSubsOfParts(bp, cell, parts, j + 1)
  }

  /** `run_command` at compile time: the command node gets a cell; the substitutions
      of its parts come first, then the command itself or the assignment. A word
      command without a word fails at compile time, since the command action's
      description is built from its word then. */
  function CompileCommand(bp: Bashparser, node: Node, env: Env): (c: Compiled)
    requires |node.parts| > 0
    ensures env.cells <= c.env.cells
    ensures Grounded(c.actions, c.env.cells)
    ensures c.err.None? <==> node.parts[0].kind == "assignment" || (node.parts[0].kind == "word" && node.parts[0].word.Some?)
    ensures node.parts[0].kind == "word" && node.parts[0].word.None? ==> c.err == Some(TypeError)
    ensures node.parts[0].kind != "word" && node.parts[0].kind != "assignment" ==> c.err.Some? && c.err.value.ValueError?
    ensures node.parts[0].kind == "word" && node.parts[0].word.None? ==> c.actions == CmdSubsOfParts(bp, |env.cells|, node.parts, 0)
    ensures node.parts[0].kind == "word" && node.parts[0].word.Some? ==>
      |c.actions| > 0 && c.actions[..|c.actions| - 1] == CmdSubsOfParts(bp, |env.cells|, node.parts, 0) && c.actions[|c.actions| - 1].CommandNode?
  {
    var command := node.parts[0];
    var cell := |env.cells|;
    var e1 := env.(cells := env.cells + [node]);
    var subs := CmdSubsOfParts(bp, cell, node.parts, 0);
    if command.kind == "word" then
      (if command.word.None? then Fail(subs, e1, TypeError) else Emit(subs + [CommandNode(cell, command.word.value, bp.render(node))], e1))
    else if command.kind == "assignment" then
      Emit([Flush("Entering Assignment Node: " + bp.render(command))] + subs + [VariableAssignment(cell, bp.render(node))], e1)
    else Fail([], env, ValueError("Command type not implemented: " + command.kind))
  }

  /** The interpreter as a value: the environment and the pending actions. */
  datatype Machine = Machine(env: Env, stack: seq<Action>)

  /** A machine after an action, and the exception the action raised, if any. */
  datatype Outcome = Outcome(m: Machine, err: Option<PyError>)

  /** `xs` ends with `ys`. */
  predicate EndsWith(xs: seq<Action>, ys: seq<Action>) {
    |ys| <= |xs| && xs[|xs| - |ys|..] == ys
  }

  /** Cells with the same parts count at every old position, and perhaps more cells. */
  predicate Shaped(cells: seq<Node>, later: seq<Node>) {
    |cells| <= |later| && forall c :: 0 <= c < |cells| ==> |later[c].parts| == |cells[c].parts|
  }

  /** Cells only appended to keep their shape. */
  lemma PrefixShaped(cells: seq<Node>, later: seq<Node>)
    requires cells <= later
    ensures Shaped(cells, later)
  {
  }

  lemma ShapedTransitive(a: seq<Node>, b: seq<Node>, c: seq<Node>)
    requires Shaped(a, b) && Shaped(b, c)
    ensures Shaped(a, c)
  {
  }

  lemma GroundedShaped(acts: seq<Action>, cells: seq<Node>, later: seq<Node>)
    requires Grounded(acts, cells) && Shaped(cells, later)
    ensures Grounded(acts, later)
  {
    forall i | 0 <= i < |acts| ensures Refers(acts[i], later) {
      assert Refers(acts[i], cells);
    }
  }

  /** What every action keeps, whether it succeeds or not: the cells keep their
      shape, a queue whose cell references hold still has them, and after success
      what was pending is still at the end of the queue. */
  predicate Follows(m: Machine, o: Outcome) {
    && (o.err.None? ==> EndsWith(o.m.stack, m.stack))
    && Shaped(m.env.cells, o.m.env.cells)
    && (Grounded(m.stack, m.env.cells) ==> Grounded(o.m.stack, o.m.env.cells))
  }

  /** Actions queued in front of what was pending, over cells that only grew, keep
      what every action keeps; so does stopping with them alone. */
  lemma QueuedFollows(m: Machine, env: Env, acts: seq<Action>)
    requires m.env.cells <= env.cells && Grounded(acts, env.cells)
    ensures Follows(m, Fine(Machine(env, acts + m.stack)))
    ensures forall e :: Follows(m, Stop(Machine(env, acts), e))
  {
    var q := acts + m.stack;
    assert q[|q| - |m.stack|..] == m.stack;
    if Grounded(m.stack, m.env.cells) {
      forall i | 0 <= i < |q| ensures Refers(q[i], env.cells) {
        if i >= |acts| {
          assert q[i] == m.stack[i - |acts|] && Refers(m.stack[i - |acts|], m.env.cells);
        }
      }
    }
  }

  /** Two actions that name no cell around grounded ones. */
  lemma GroundedBetween(x: Action, acts: seq<Action>, y: Action, cells: seq<Node>)
    requires Refers(x, cells) && Refers(y, cells) && Grounded(acts, cells)
    ensures Grounded([x] + acts + [y], cells)
  {
    var q := [x] + acts + [y];
    forall i | 0 <= i < |q| ensures Refers(q[i], cells) {
      if 0 < i < |q| - 1 {
        assert q[i] == acts[i - 1];
      }
    }
  }

  function WithState(m: Machine, s: StateValue): Machine { m.(env := m.env.(state := s)) }

  function Fine(m: Machine): Outcome { Outcome(m, None) }

  function Stop(m: Machine, e: PyError): Outcome { Outcome(m, Some(e)) }

  function Abs(x: int): nat { if x < 0 then -x else x }

  /** The `k`-th position the `$` search looks at: `orig`, then one to the left,
      one to the right, two to the left, and so on. */
  function Probe(orig: int, k: nat): int {
    if k % 2 == 1 then orig - (k + 1) / 2 else orig + k / 2
  }

  /** The `$` search from probe `k` on: the first probe that holds '$'; a probe that
      falls outside the word (negative positions count from the end) is the
      source's IndexError. */
  function DollarSearch(w: string, orig: int, k: nat): (r: Result<int>)
    ensures r.Ok? ==> PyIndex(w, r.value) == Some('$')
    decreases 2 * (Abs(orig) + |w|) + 2 - k
  {
    var c := PyIndex(w, Probe(orig, k));
    if c.None? then Err(IndexError)
    else if c.value == '$' then Ok(Probe(orig, k))
    else DollarSearch(w, orig, k + 1)
  }

  /** The loop of `replace_cmd_sub_results` that finds the `$` of a substitution. */
  method FindDollar(w: string, orig: int) returns (r: Result<int>)
    ensures r == DollarSearch(w, orig, 0)
  {
    var index := orig;
    var offset := -1;
    ghost var k: nat := 0;
    while true
      invariant index == Probe(orig, k)
      invariant offset == (if k % 2 == 0 then -(k / 2 + 1) else (k + 1) / 2)
      invariant DollarSearch(w, orig, k) == DollarSearch(w, orig, 0)
      decreases 2 * (Abs(orig) + |w|) + 2 - k
    {
      var c := PyIndex(w, index);
      if c.None? {
        return Err(IndexError);
      }
      if c.value == '$' {
        return Ok(index);
      }
      index := orig + offset;
      offset := if offset < 0 then Abs(offset) else -(offset + 1);
      k := k + 1;
    }
  }

  /** What a command substitution captures: OUT when the screen is empty; otherwise
      the screen with every newline turned into a space, then a space and OUT, and
      without that space when OUT is empty. */
  function Capture(screen: string, out: string): (r: string)
    ensures screen == "" ==> r == out
    ensures screen != "" ==> r == ReplaceChar(screen, '\n', " ") + (if out == "" then "" else " " + out)
  {
    var screenString := Join(Split(screen, '\n'), " ");
    JoinSplitIsReplace(screen, '\n', " ");
    ReplaceCharNonEmpty(screen, '\n', " ");
    var results := if |screenString| > 0 then screenString + " " + out else out;
    if out == "" && |screenString| > 0 then results[..|results| - 1] else results
  }

  lemma ReplaceCharNonEmpty(s: string, c: char, r: string)
    requires |r| > 0
    ensures |ReplaceChar(s, c, r)| == 0 <==> |s| == 0
  {
    if |s| > 0 {
      assert |ReplaceChar(s, c, r)| >= 1;
    }
  }

  /** The arguments of a function call: each argument substituted on its own and
      bound to "1", "2", ... in order. */
  function CallArguments(bp: Bashparser, s: StateValue, args: seq<Node>): (r: Result<seq<(string, string)>>)
    ensures r.Ok? ==> |r.value| == |args|
    ensures r.Ok? ==> forall k :: 0 <= k < |args| ==> r.value[k].0 == Positional(k + 1)
    ensures r.Ok? ==> forall k :: 0 <= k < |args| ==>
      var sub := s.Replace(bp, [args[k]], false);
      |sub| > 0 && sub[0].word == Some(r.value[k].1)
    decreases |args|
  {
    if |args| == 0 then Ok([])
    else
      var prior := CallArguments(bp, s, args[..|args| - 1]);
      var sub := s.Replace(bp, [args[|args| - 1]], false);
      if prior.Err? then prior
      else if |sub| == 0 then Err(IndexError)
      else if sub[0].word.None? then Err(AttributeError)
      else Ok(prior.value + [(Positional(|args|), sub[0].word.value)])
  }

  /** The variables set one after the other. */
  function BindAll(s: StateValue, args: seq<(string, string)>): (t: StateValue)
    ensures t == s.(variables := t.variables)
    decreases |args|
  {
    if |args| == 0 then s else BindAll(s.SetVariable(args[0].0, Scalar(args[0].1)), args[1..])
  }

  /** A list operator after the previous command: `||` clears `execute` when that
      command printed a zero, `&&` when it printed a number other than zero, `&`
      keeps it, `;` and a newline set it; any other operator is a ValueError. */
  function Separate(op: string, previous: string, execute: bool): (r: Result<bool>)
    ensures r.Ok? <==> op in {"||", "&&", "&", ";", "\n"}
    ensures op == "||" ==> r == Ok(execute && !(IsDigits(previous) && DigitsValue(previous) == 0))
    ensures op == "&&" ==> r == Ok(execute && !(IsDigits(previous) && DigitsValue(previous) != 0))
    ensures op == "&" ==> r == Ok(execute)
    ensures op == ";" || op == "\n" ==> r == Ok(true)
  {
    if op == "||" then Ok(if IsDigits(previous) && DigitsValue(previous) == 0 then false else execute)
    else if op == "&&" then Ok(if IsDigits(previous) && DigitsValue(previous) != 0 then false else execute)
    else if op == "&" then Ok(execute)
    else if op == ";" || op == "\n" then Ok(true)
    else Err(ValueError("Op type not implemented in interpreter: " + op))
  }

  /** Whether a clause before this one already held, reading the stored truths in
      order; a condition with no stored truth is a KeyError. */
  function EarlierHeld(truths: map<string, Truth>, conds: seq<string>): (r: Result<bool>)
    ensures r == Ok(false) <==> forall k :: 0 <= k < |conds| ==> conds[k] in truths && truths[conds[k]] != Str("t")
    decreases |conds|
  {
    if |conds| == 0 then Ok(false)
    else if conds[0] !in truths then Err(KeyError)
    else if truths[conds[0]] == Str("t") then Ok(true)
    else
      var r := EarlierHeld(truths, conds[1..]);
      assert forall k :: 1 <= k < |conds| ==> conds[k] == conds[1..][k - 1];
      r
  }

  /** Nodes compiled one at a time, each into an empty queue, as the gate of an
      `if` clause does; after an exception only what the failing node queued is left. */
  function CompileEach(bp: Bashparser, nodes: seq<Node>, env: Env): (c: Compiled)
    decreases |nodes|
    ensures env.cells <= c.env.cells
    ensures Grounded(c.actions, c.env.cells)
  {
    if |nodes| == 0 then Emit([], env)
    else
      var first := Compile(bp, nodes[0], env);
      if first.err.Some? then first
      else
        var rest := CompileEach(bp, nodes[1..], first.env);
        if rest.err.Some? then rest
        else
          GroundedThen(first.actions, first.env.cells, rest);
          Then(first.actions, rest)
  }

  /** The actions that only move text between the socket, the screen and files. */
  function ExecIO(bp: Bashparser, op: Operator, a: Action, m: Machine): (o: Outcome)
    requires a.InitializeCommand? || a.ExitNodeCleanup? || a.PipelineTransfer? || a.Flush?
      || a.PrepareRedirects? || a.LoadRedirect? || a.SaveRedirect? || a.ExitRedirects?
    ensures Follows(m, o)
  {
    var s := m.env.state;
    match a
    case InitializeCommand => Fine(WithState(m, s.SetStdout(Some("")).SetStdin(Some(""))))
    case ExitNodeCleanup => Fine(WithState(m, s.PrintToScreen().SetStdin(Some(""))))
    case PipelineTransfer => Fine(WithState(m, s.(stdio := s.stdio.Transfer())))
    case Flush(_) => Fine(WithState(m, s.PrintToScreen()))
    case PrepareRedirects => Fine(WithState(m, s.(screensAbove := s.screensAbove + [s.screen], screen := "")))
    case LoadRedirect(r) =>
      var name := bp.render(r.output);
      if name in s.fs then Fine(WithState(m, s.SetStdin(s.fs[name].contents)))
      else Fine(WithState(m, s.SetStdin(Some(op.hostFile(name)))))
    case SaveRedirect(r) =>
      var u := s.UpdateFileSystem(bp.render(r.output), s.screen + s.stdio.OUT, DefaultPermissions, None);
      if u.Err? then Stop(m, u.error) else Fine(WithState(m, u.value))
    case ExitRedirects =>
      if |s.screensAbove| == 0 then Stop(m, IndexError)
      else Fine(WithState(m, s.(screen := s.screensAbove[|s.screensAbove| - 1], screensAbove := s.screensAbove[..|s.screensAbove| - 1])))
  }

  /** The actions of `if` nodes. */
  function ExecIf(bp: Bashparser, op: Operator, a: Action, m: Machine): (o: Outcome)
    requires a.FindTruth? || a.ElseTruth? || a.GateClause? || a.CheckBooleanPassed?
    ensures Follows(m, o)
  {
    var s := m.env.state;
    match a
    case ElseTruth => Fine(m)
    case FindTruth(cond) => FindTruthStep(bp, op, cond, m)
    case GateClause(cond, body, earlier, isElse) => Gate(bp, cond, body, earlier, isElse, m)
    case CheckBooleanPassed(cond) =>
      Fine(WithState(m, s.(truths := s.truths[cond := Str(if s.stdio.OUT == "" then "f" else "t")], stdio := s.stdio.(OUT := ""))))
  }

  /** `find_truth`: a stored truth is kept; otherwise the operator says true or
      false, which is stored as a boolean, or asks to execute the condition, whose
      actions then run before everything pending, followed by the check of its output. */
  function FindTruthStep(bp: Bashparser, op: Operator, cond: string, m: Machine): (o: Outcome)
    ensures Follows(m, o)
    ensures cond in m.env.state.truths ==> o == Fine(m)
    ensures cond !in m.env.state.truths && op.truth(cond) != AnswerExecute ==>
      o == Fine(WithState(m, m.env.state.(truths := m.env.state.truths[cond := Bool(op.truth(cond) == AnswerTrue)])))
    ensures cond !in m.env.state.truths && op.truth(cond) == AnswerExecute && |cond| == 0 ==>
      o == Stop(m.(stack := []), IndexError)
  {
    var s := m.env.state;
    if cond in s.truths then Fine(m)
    else
      var answer := op.truth(cond);
      if answer == AnswerTrue then Fine(WithState(m, s.(truths := s.truths[cond := Bool(true)])))
      else if answer == AnswerFalse then Fine(WithState(m, s.(truths := s.truths[cond := Bool(false)])))
      else if |cond| == 0 then Stop(m.(stack := []), IndexError)
      else
        var trimmed := if cond[|cond| - 1] == ';' then cond[..|cond| - 1] else cond;
        var parsed := bp.parse(trimmed);
        if |parsed| == 0 then Stop(m.(stack := []), IndexError)
        else
          var c := Compile(bp, parsed[0], m.env);
          if c.err.Some? then
            QueuedFollows(m, c.env, c.actions);
            Stop(Machine(c.env, c.actions), c.err.value)
          else
            var acts := c.actions + [CheckBooleanPassed(cond)];
            QueuedFollows(m, c.env, acts);
            assert acts + m.stack == c.actions + [CheckBooleanPassed(cond)] + m.stack;
            Fine(Machine(c.env, c.actions + [CheckBooleanPassed(cond)] + m.stack))
  }

  /** `execte_truth`: nothing when an earlier clause held; otherwise, for `else` or
      a condition whose stored truth is the text "t", the body runs next, between an
      enter and an exit action. */
  function Gate(bp: Bashparser, cond: string, body: seq<Node>, earlier: seq<string>, isElse: bool, m: Machine): (o: Outcome)
    ensures Follows(m, o)
  {
    var truths := m.env.state.truths;
    var held := EarlierHeld(truths, earlier);
    if held.Err? then Stop(m, held.error)
    else if held.value then Fine(m)
    else if !isElse && cond !in truths then Stop(m, KeyError)
    else if isElse || truths[cond] == Str("t") then
      var c := CompileEach(bp, body, m.env);
      if c.err.Some? then
        QueuedFollows(m, c.env, c.actions);
        Stop(Machine(c.env, c.actions), c.err.value)
      else
        var acts := [Flush(IfEnter)] + c.actions + [Flush(IfExit)];
        GroundedBetween(Flush(IfEnter), c.actions, Flush(IfExit), c.env.cells);
        QueuedFollows(m, c.env, acts);
        Fine(Machine(c.env, acts + m.stack))
    else Fine(m)
  }

  /** Subshells, function scopes and command substitutions. */
  function ExecScope(bp: Bashparser, a: Action, m: Machine): (o: Outcome)
    requires a.EnterSubshellEnv? || a.ExitSubshellEnv? || a.EnterFunctionScope? || a.ExitFunctionScope?
      || a.EnterCmdSub? || a.ExitCmdSub?
    ensures Follows(m, o)
  {
    var s := m.env.state;
    match a
    case EnterSubshellEnv => Fine(WithState(m, s.LowerScope()))
    case ExitSubshellEnv => Fine(WithState(m, s.PrintToScreen().RaiseScope()))
    case EnterFunctionScope(args) => Fine(WithState(m, BindAll(s.LowerScope(), args)))
    case ExitFunctionScope => Fine(WithState(m, s.PrintToScreen().RaiseScope()))
    case EnterCmdSub(sub, _) =>
      var lowered := m.env.(state := s.LowerScope());
      if sub.command.None? then Stop(Machine(lowered, m.stack), AttributeError)
      else
        var c := Compile(bp, sub.command.value, lowered);
        QueuedFollows(m, c.env, c.actions);
        if c.err.Some? then Stop(Machine(c.env, c.actions), c.err.value)
        else Fine(Machine(c.env, c.actions + m.stack))
    case ExitCmdSub(cell, word, sub, index, _) => ExitCmdSubStep(cell, word, sub, index, m)
  }

  /** `replace_cmd_sub_results`: the captured text replaces the substitution in the
      word, the substitution part is removed, and the outer scope comes back. */
  function ExitCmdSubStep(cell: nat, word: nat, sub: Node, index: int, m: Machine): (o: Outcome)
    ensures Follows(m, o)
  {
    var s := m.env.state;
    var cells := m.env.cells;
    if cell >= |cells| || word >= |cells[cell].parts| then Stop(m, IndexError)
    else
      var node := cells[cell].parts[word];
      var results := Capture(s.screen, s.stdio.OUT);
      var cleared := WithState(m, s.(stdio := s.stdio.(OUT := ""), screen := ""));
      if node.word.None? then Stop(cleared, TypeError)
      else
        var w := node.word.value;
        var found := DollarSearch(w, sub.pos.0 - node.pos.0, 0);
        if found.Err? then Stop(cleared, found.error)
        else
          var i := found.value;
          var w2 := PySliceTo(w, i) + results + PySliceFrom(w, i + (sub.pos.1 - node.pos.0));
          var node2 := node.(word := Some(w2), parts := PySliceTo(node.parts, index) + PySliceFrom(node.parts, index + 1));
          var cells2 := cells[cell := cells[cell].(parts := cells[cell].parts[word := node2])];
          Fine(Machine(cleared.env.(cells := cells2, state := cleared.env.state.RaiseScope()), m.stack))
  }

  /** A command node when it runs: a user function, a built-in, or an unknown
      command the operator may send to the host shell. */
  function ExecCommand(bp: Bashparser, op: Operator, cell: nat, m: Machine): (o: Outcome)
    ensures Follows(m, o)
  {
    var s := m.env.state;
    if cell >= |m.env.cells| || |m.env.cells[cell].parts| == 0 then Stop(m, IndexError)
    else
      var node := m.env.cells[cell];
      var command := node.parts[0];
      var args := node.parts[1..];
      if command.word.Some? && command.word.value in s.functions then CallFunction(bp, node, args, m)
      else if command.word.Some? && command.word.value in Builtins.Bin then
        var replaced := s.Replace(bp, [node], false);
        if |replaced| == 0 then Stop(m, IndexError)
        else
          var e := Builtins.Call(command.word.value, s, op, replaced[0]);
          Outcome(WithState(m, e.state), e.err)
      else if command.word.None? then Stop(m, AttributeError)
      else if (|Strip(command.word.value)| > 0 || |args| > 0) && op.executeUnknown(command.word.value) then
        Fine(WithState(m, s.SetStdout(op.shell(bp.render(node)))))
      else Fine(m)
  }

  /** A call of a user function: the body the function table resolves runs next,
      inside a scope that binds the arguments. */
  function CallFunction(bp: Bashparser, node: Node, args: seq<Node>, m: Machine): (o: Outcome)
    ensures Follows(m, o)
  {
    var s := m.env.state;
    var resolved := s.ResolveFunctions(bp, node);
    if resolved.Err? then Stop(m, resolved.error)
    else
      var bound := CallArguments(bp, s, args);
      if bound.Err? then Stop(m, bound.error)
      else
        var body := Compile(bp, resolved.value, m.env);
        if body.err.Some? then
          GroundedThen([EnterFunctionScope(bound.value)], body.env.cells, body);
          QueuedFollows(m, body.env, [EnterFunctionScope(bound.value)] + body.actions);
          Stop(Machine(body.env, [EnterFunctionScope(bound.value)] + body.actions), body.err.value)
        else
          var acts := [EnterFunctionScope(bound.value)] + body.actions + [ExitFunctionScope];
          GroundedBetween(EnterFunctionScope(bound.value), body.actions, ExitFunctionScope, body.env.cells);
          QueuedFollows(m, body.env, acts);
          Fine(Machine(body.env, acts + m.stack))
  }

  /** An assignment when it runs: the substituted assignment updates the variables. */
  function ExecAssignment(bp: Bashparser, cell: nat, m: Machine): (o: Outcome)
    ensures Follows(m, o)
  {
    var s := m.env.state;
    if cell >= |m.env.cells| || |m.env.cells[cell].parts| == 0 then Stop(m, IndexError)
    else Fine(WithState(m, UpdateAll(bp, s, s.Replace(bp, [m.env.cells[cell].parts[0]], false))))
  }

  function UpdateAll(bp: Bashparser, s: StateValue, nodes: seq<Node>): StateValue
    decreases |nodes|
  {
    if |nodes| == 0 then s else UpdateAll(bp, s.UpdateVariableList(bp, nodes[0]), nodes[1..])
  }

  /** Calling an action: `m` already has the action taken off the front. */
  function Exec(bp: Bashparser, op: Operator, a: Action, m: Machine): (o: Outcome)
    ensures Follows(m, o)
  {
    var s := m.env.state;
    match a
    case ListSeparator(sep) =>
      var (sock, previous) := s.stdio.Read();
      var read := WithState(m, s.(stdio := sock));
      var r := Separate(sep, previous, m.env.execute);
      if r.Err? then Stop(read, r.error) else Fine(read.(env := read.env.(execute := r.value)))
    case SetLoopIterator(name, value) => Fine(WithState(m, s.SetVariable(name, Scalar(value))))
    case CommandNode(cell, _, _) => ExecCommand(bp, op, cell, m)
    case VariableAssignment(cell, _) => ExecAssignment(bp, cell, m)
    case FindTruth(_) => ExecIf(bp, op, a, m)
    case ElseTruth => ExecIf(bp, op, a, m)
    case GateClause(_, _, _, _) => ExecIf(bp, op, a, m)
    case CheckBooleanPassed(_) => ExecIf(bp, op, a, m)
    case EnterSubshellEnv => ExecScope(bp, a, m)
    case ExitSubshellEnv => ExecScope(bp, a, m)
    case EnterFunctionScope(_) => ExecScope(bp, a, m)
    case ExitFunctionScope => ExecScope(bp, a, m)
    case EnterCmdSub(_, _) => ExecScope(bp, a, m)
    case ExitCmdSub(_, _, _, _, _) => ExecScope(bp, a, m)
    case _ => ExecIO(bp, op, a, m)
  }

  /** `inch` on a non-empty queue: the front action is removed and called. */
  function Step(bp: Bashparser, op: Operator, m: Machine): (o: Outcome)
    requires |m.stack| > 0
    ensures o.err.None? ==> EndsWith(o.m.stack, m.stack[1..])
    ensures Shaped(m.env.cells, o.m.env.cells)
    ensures Grounded(m.stack, m.env.cells) ==> Grounded(o.m.stack, o.m.env.cells)
  {
    assert Grounded(m.stack, m.env.cells) ==> Grounded(m.stack[1..], m.env.cells);
    Exec(bp, op, m.stack[0], m.(stack := m.stack[1..]))
  }

  /** `build`: unless appending, the queue is emptied first; the node's actions are
      queued between the start-of-command and the clean-up actions. */
  function Build(bp: Bashparser, node: Node, append: bool, m: Machine): (o: Outcome)
    ensures append ==> |m.stack| < |o.m.stack| && o.m.stack[..|m.stack|] == m.stack && o.m.stack[|m.stack|] == InitializeCommand
    ensures !append ==> |o.m.stack| > 0 && o.m.stack[0] == InitializeCommand
    ensures o.err.None? ==> o.m.stack[|o.m.stack| - 1] == ExitNodeCleanup
    ensures m.env.cells <= o.m.env.cells
    ensures (append ==> Grounded(m.stack, m.env.cells)) ==> Grounded(o.m.stack, o.m.env.cells)
  {
    var prefix := (if append then m.stack else []) + [InitializeCommand];
    var c := Compile(bp, node, m.env);
    assert append ==> Grounded(m.stack, m.env.cells) ==> Grounded(prefix, m.env.cells);
    GroundedThen(prefix, m.env.cells, c);
    if c.err.Some? then Stop(Machine(c.env, prefix + c.actions), c.err.value)
    else Fine(Machine(c.env, prefix + c.actions + [ExitNodeCleanup]))
  }

  /** `run`'s loop, for at most `fuel` actions; an exception ends it. */
  function RunFuel(bp: Bashparser, op: Operator, m: Machine, fuel: nat): (o: Outcome)
    ensures |m.stack| == 0 ==> o == Fine(m)
    ensures Shaped(m.env.cells, o.m.env.cells)
    ensures Grounded(m.stack, m.env.cells) ==> Grounded(o.m.stack, o.m.env.cells)
    decreases fuel
  {
    if |m.stack| == 0 || fuel == 0 then Fine(m)
    else
      var o := Step(bp, op, m);
      if o.err.Some? then o else RunFuel(bp, op, o.m, fuel - 1)
  }
}
