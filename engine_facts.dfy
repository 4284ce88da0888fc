/**
 * Properties of the engine that relate several compilations or several steps:
 * the layout of the queue the compiler builds for pipelines, loops and command
 * substitutions, what the gates of an `if` do, the binding of function
 * arguments, and how runs compose.
 */
module EngineFacts {
  import opened Wrappers
  import opened PyStr
  import opened BashAst
  import opened Primitives
  import opened Actions
  import opened Engine

  /** The pair at `i`: an enter and an exit action for the same `$(...)` part,
      the part at the position the exit action records. */
  predicate PairAt(acts: seq<Action>, i: nat, w: Node, k: nat)
    requires i + 1 < |acts|
  {
    && acts[i].EnterCmdSub? && acts[i + 1].ExitCmdSub? && acts[i].sub == acts[i + 1].sub
    && 0 <= acts[i + 1].index < k && k <= |w.parts| && w.parts[acts[i + 1].index] == acts[i].sub
    && acts[i].sub.kind == "commandsubstitution"
  }

  predicate Paired(acts: seq<Action>, w: Node, k: nat) {
    |acts| % 2 == 0 && forall i :: 0 <= i < |acts| && i % 2 == 0 ==> PairAt(acts, i, w, k)
  }

  lemma PairedCons(pair: seq<Action>, rest: seq<Action>, w: Node, k: nat, k2: nat)
    requires |pair| == 2 && PairAt(pair, 0, w, k2) && Paired(rest, w, k) && k <= k2
    ensures Paired(pair + rest, w, k2)
  {
    var acts := pair + rest;
    forall i | 0 <= i < |acts| && i % 2 == 0 ensures PairAt(acts, i, w, k2) {
      if i == 0 {
        assert acts[0] == pair[0] && acts[1] == pair[1];
      } else {
        assert acts[i] == rest[i - 2] && acts[i + 1] == rest[i - 1];
        assert PairAt(rest, i - 2, w, k);
      }
    }
  }

  /** The actions queued for one word's substitutions come in pairs: an enter
      action and an exit action for the same `$(...)` part of the word. */
  lemma {:induction false} CmdSubsPaired(bp: Bashparser, cell: nat, j: nat, w: Node, k: nat)
    requires k <= |w.parts|
    ensures Paired(CmdSubsOfWord(bp, cell, j, w, k), w, k)
    decreases k
  {
    if k > 0 {
      CmdSubsPaired(bp, cell, j, w, k - 1);
      var rest := CmdSubsOfWord(bp, cell, j, w, k - 1);
      var p := w.parts[k - 1];
      if p.kind == "commandsubstitution" {
        var pair := [EnterCmdSub(p, bp.render(w)), ExitCmdSub(cell, j, p, k - 1, bp.render(w))];
        assert PairAt(pair, 0, w, k);
        PairedCons(pair, rest, w, k - 1, k);
      } else {
        PairedWeaken(rest, w, k);
        assert CmdSubsOfWord(bp, cell, j, w, k) == [] + rest;
        assert [] + rest == rest;
      }
    }
  }

  lemma PairedWeaken(acts: seq<Action>, w: Node, k: nat)
    requires k > 0 && Paired(acts, w, k - 1) && k <= |w.parts|
    ensures Paired(acts, w, k)
  {
    forall i | 0 <= i < |acts| && i % 2 == 0 ensures PairAt(acts, i, w, k) {
      assert PairAt(acts, i, w, k - 1);
    }
  }

  /** The exit actions record positions below `k`, each one lower than the one before. */
  predicate Descending(acts: seq<Action>, k: int) {
    && (forall i :: 0 <= i < |acts| && acts[i].ExitCmdSub? ==> acts[i].index < k)
    && (forall i, i2 :: 0 <= i < i2 < |acts| && acts[i].ExitCmdSub? && acts[i2].ExitCmdSub? ==> acts[i].index > acts[i2].index)
  }

  lemma DescendingCons(pair: seq<Action>, rest: seq<Action>, k: nat)
    requires |pair| == 2 && pair[0].EnterCmdSub? && pair[1].ExitCmdSub? && pair[1].index == k - 1
    requires Descending(rest, k - 1)
    ensures Descending(pair + rest, k)
  {
    var acts := pair + rest;
    forall i | 0 <= i < |acts| && acts[i].ExitCmdSub? ensures acts[i].index < k {
      if i >= 2 { assert acts[i] == rest[i - 2]; }
    }
    forall i, i2 | 0 <= i < i2 < |acts| && acts[i].ExitCmdSub? && acts[i2].ExitCmdSub?
      ensures acts[i].index > acts[i2].index
    {
      assert acts[i2] == rest[i2 - 2];
      if i >= 2 { assert acts[i] == rest[i - 2]; }
    }
  }

  lemma DescendingWeaken(acts: seq<Action>, k: int)
    requires Descending(acts, k - 1)
    ensures Descending(acts, k)
  {
  }

  /** The substitutions of a word are queued from its last part back to its first. */
  lemma {:induction false} CmdSubsLastFirst(bp: Bashparser, cell: nat, j: nat, w: Node, k: nat)
    requires k <= |w.parts|
    ensures Descending(CmdSubsOfWord(bp, cell, j, w, k), k)
    decreases k
  {
    if k > 0 {
      CmdSubsLastFirst(bp, cell, j, w, k - 1);
      var rest := CmdSubsOfWord(bp, cell, j, w, k - 1);
      var p := w.parts[k - 1];
      if p.kind == "commandsubstitution" {
        DescendingCons([EnterCmdSub(p, bp.render(w)), ExitCmdSub(cell, j, p, k - 1, bp.render(w))], rest, k);
      } else {
        DescendingWeaken(rest, k);
      }
    }
  }

  /** Every `$(...)` part of the word gets its exit action. */
  lemma {:induction false} CmdSubsCoverWord(bp: Bashparser, cell: nat, j: nat, w: Node, k: nat)
    requires k <= |w.parts|
    ensures forall q :: 0 <= q < k && w.parts[q].kind == "commandsubstitution" ==>
      ExitCmdSub(cell, j, w.parts[q], q, bp.render(w)) in CmdSubsOfWord(bp, cell, j, w, k)
    decreases k
  {
    if k > 0 {
      CmdSubsCoverWord(bp, cell, j, w, k - 1);
      var rest := CmdSubsOfWord(bp, cell, j, w, k - 1);
      var acts := CmdSubsOfWord(bp, cell, j, w, k);
      var p := w.parts[k - 1];
      if p.kind == "commandsubstitution" {
        assert acts == [EnterCmdSub(p, bp.render(w)), ExitCmdSub(cell, j, p, k - 1, bp.render(w))] + rest;
        assert acts[1] == ExitCmdSub(cell, j, w.parts[k - 1], k - 1, bp.render(w));
      } else {
        assert acts == rest;
      }
    }
  }

  /** How many pipeline transfers a queue holds. */
  function Transfers(acts: seq<Action>): nat
    decreases |acts|
  {
    if |acts| == 0 then 0 else (if acts[0].PipelineTransfer? then 1 else 0) + Transfers(acts[1..])
  }

  lemma {:induction false} TransfersAppend(a: seq<Action>, b: seq<Action>)
    ensures Transfers(a + b) == Transfers(a) + Transfers(b)
    decreases |a|
  {
    if |a| > 0 {
      assert (a + b)[1..] == a[1..] + b;
      TransfersAppend(a[1..], b);
    } else {
      assert a + b == b;
    }
  }

  lemma {:induction false} NoTransfers(acts: seq<Action>)
    requires forall i :: 0 <= i < |acts| ==> !acts[i].PipelineTransfer?
    ensures Transfers(acts) == 0
    decreases |acts|
  {
    if |acts| > 0 {
      assert forall i :: 0 <= i < |acts[1..]| ==> acts[1..][i] == acts[i + 1];
      NoTransfers(acts[1..]);
    }
  }

  /** A simple command queues no transfer of its own. */
  lemma CommandQueuesNoTransfer(bp: Bashparser, node: Node, env: Env)
    requires node.kind == "command"
    ensures Transfers(Compile(bp, node, env).actions) == 0
  {
    NoTransfers(Compile(bp, node, env).actions);
  }

  lemma {:induction false} PipelineTransfersFrom(bp: Bashparser, node: Node, i: nat, env: Env)
    requires i <= |node.parts|
    requires forall k :: i <= k < |node.parts| && k % 2 == 0 ==> node.parts[k].kind == "command"
    ensures CompilePipeline(bp, node, i, env).err.None? ==> Transfers(CompilePipeline(bp, node, i, env).actions) == |node.parts| / 2 - i / 2
    decreases |node.parts| - i
  {
    if i < |node.parts| {
      if i % 2 != 0 {
        PipelineTransfersFrom(bp, node, i + 1, env);
        TransfersAppend([PipelineTransfer], CompilePipeline(bp, node, i + 1, env).actions);
      } else {
        var stage := Compile(bp, node.parts[i], env);
        if stage.err.None? {
          CommandQueuesNoTransfer(bp, node.parts[i], env);
          PipelineTransfersFrom(bp, node, i + 1, stage.env);
          TransfersAppend(stage.actions, CompilePipeline(bp, node, i + 1, stage.env).actions);
        }
      }
    }
  }

  /** A pipeline of simple commands queues exactly one transfer per pipe: with
      `k` stages (`2k - 1` parts) there are `k - 1` transfers. */
  lemma PipelineOneTransferPerPipe(bp: Bashparser, node: Node, env: Env)
    requires node.kind == "pipeline"
    requires forall k :: 0 <= k < |node.parts| && k % 2 == 0 ==> node.parts[k].kind == "command"
    ensures Compile(bp, node, env).err.None? ==> Transfers(Compile(bp, node, env).actions) == |node.parts| / 2
  {
    PipelineTransfersFrom(bp, node, 0, env);
  }

  /** The loop bookkeeping in a queue: the iterator assignments and the flushes
      that end an iteration, in order. */
  function LoopMarks(acts: seq<Action>): seq<Action>
    decreases |acts|
  {
    if |acts| == 0 then []
    else (if IsLoopMark(acts[0]) then [acts[0]] else []) + LoopMarks(acts[1..])
  }

  predicate IsLoopMark(a: Action) {
    a.SetLoopIterator? || (a.Flush? && a.text == ForIterate)
  }

  /** What a loop over `values` should leave: for each value in order, setting the
      iterator and then ending the iteration. */
  function Iterations(name: string, values: seq<string>): (r: seq<Action>)
    ensures |r| == 2 * |values|
    decreases |values|
  {
    if |values| == 0 then [] else [SetLoopIterator(name, values[0]), Flush(ForIterate)] + Iterations(name, values[1..])
  }

  lemma {:induction false} LoopMarksAppend(a: seq<Action>, b: seq<Action>)
    ensures LoopMarks(a + b) == LoopMarks(a) + LoopMarks(b)
    decreases |a|
  {
    if |a| > 0 {
      assert (a + b)[1..] == a[1..] + b;
      LoopMarksAppend(a[1..], b);
    } else {
      assert a + b == b;
    }
  }

  lemma {:induction false} NoLoopMarks(acts: seq<Action>)
    requires forall i :: 0 <= i < |acts| ==> !IsLoopMark(acts[i])
    ensures LoopMarks(acts) == []
    decreases |acts|
  {
    if |acts| > 0 {
      assert forall i :: 0 <= i < |acts[1..]| ==> acts[1..][i] == acts[i + 1];
      NoLoopMarks(acts[1..]);
    }
  }

  /** A simple command queues no loop bookkeeping. */
  lemma CommandQueuesNoLoopMarks(bp: Bashparser, node: Node, env: Env)
    requires node.kind == "command"
    ensures LoopMarks(Compile(bp, node, env).actions) == []
  {
    var acts := Compile(bp, node, env).actions;
    if |node.parts| > 0 && node.parts[0].kind == "assignment" {
      var f := "Entering Assignment Node: " + bp.render(node.parts[0]);
      assert f[0] == 'E' && ForIterate[0] == 'i';
      assert acts[0] == Flush(f);
    }
    NoLoopMarks(acts);
  }

  lemma {:induction false} RangeQueuesNoLoopMarks(bp: Bashparser, node: Node, lo: nat, hi: nat, env: Env)
    requires lo <= hi <= |node.parts|
    requires forall k :: lo <= k < hi ==> node.parts[k].kind == "command"
    ensures LoopMarks(CompileRange(bp, node, lo, hi, env).actions) == []
    decreases hi - lo
  {
    if lo < hi {
      var first := Compile(bp, node.parts[lo], env);
      CommandQueuesNoLoopMarks(bp, node.parts[lo], env);
      if first.err.None? {
        var rest := CompileRange(bp, node, lo + 1, hi, first.env);
        RangeQueuesNoLoopMarks(bp, node, lo + 1, hi, first.env);
        LoopMarksAppend(first.actions, rest.actions);
        assert CompileRange(bp, node, lo, hi, env).actions == first.actions + rest.actions;
      } else {
        assert CompileRange(bp, node, lo, hi, env) == first;
      }
    }
  }

  lemma {:induction false} IterationsInOrder(bp: Bashparser, node: Node, lo: nat, hi: nat, name: string, values: seq<string>, env: Env)
    requires lo <= hi <= |node.parts|
    requires forall k :: lo <= k < hi ==> node.parts[k].kind == "command"
    ensures CompileIterations(bp, node, lo, hi, name, values, env).err.None? ==>
      LoopMarks(CompileIterations(bp, node, lo, hi, name, values, env).actions) == Iterations(name, values)
    decreases |values|
  {
    if |values| > 0 {
      var b := CompileRange(bp, node, lo, hi, env);
      if b.err.None? {
        RangeQueuesNoLoopMarks(bp, node, lo, hi, env);
        IterationsInOrder(bp, node, lo, hi, name, values[1..], b.env);
        var rest := CompileIterations(bp, node, lo, hi, name, values[1..], b.env);
        var head := [SetLoopIterator(name, values[0])] + b.actions + [Flush(ForIterate)];
        LoopMarksAppend(head, rest.actions);
        LoopMarksAppend([SetLoopIterator(name, values[0])] + b.actions, [Flush(ForIterate)]);
        LoopMarksAppend([SetLoopIterator(name, values[0])], b.actions);
        assert LoopMarks([Flush(ForIterate)]) == [Flush(ForIterate)];
        assert LoopMarks([SetLoopIterator(name, values[0])]) == [SetLoopIterator(name, values[0])];
      }
    }
  }

  /** A `for` loop over simple commands: the values are read from the variable
      table at compile time, each one sets the iterator and ends with the flush of
      its iteration, in value order; the loop starts and ends with its entry and
      exit flushes, and the iterator is no longer in the table afterwards. */
  lemma ForLoopLayout(bp: Bashparser, node: Node, env: Env)
    requires node.kind == "for" && |node.parts| >= 2 && node.parts[1].word.Some?
    requires DoIndex(node.parts).Some? ==>
      forall k :: DoIndex(node.parts).value < k < |node.parts| - 1 ==> node.parts[k].kind == "command"
    ensures Compile(bp, node, env).err.None? ==> ForShape(Compile(bp, node, env), node.parts[1].word.value, env.state.UpdateVariableList(bp, node).variables)
  {
    assert Compile(bp, node, env) == CompileFor(bp, node, env);
    CompileForShape(bp, node, env);
  }

  /** The layout of `CompileFor`'s queue, which `ForLoopLayout` states for `Compile`. */
  lemma CompileForShape(bp: Bashparser, node: Node, env: Env)
    requires node.kind == "for" && |node.parts| >= 2 && node.parts[1].word.Some?
    requires DoIndex(node.parts).Some? ==>
      forall k :: DoIndex(node.parts).value < k < |node.parts| - 1 ==> node.parts[k].kind == "command"
    ensures CompileFor(bp, node, env).err.None? ==> ForShape(CompileFor(bp, node, env), node.parts[1].word.value, env.state.UpdateVariableList(bp, node).variables)
  {
    var c := CompileFor(bp, node, env);
    var name := node.parts[1].word.value;
    var e1 := env.(state := env.state.UpdateVariableList(bp, node));
    var d := DoIndex(node.parts);
    if name in e1.state.variables && d.Some? {
      var hi := if d.value + 1 < |node.parts| then |node.parts| - 1 else d.value + 1;
      var values := e1.state.variables[name];
      var loop := CompileIterations(bp, node, d.value + 1, hi, name, values, e1);
      if loop.err.None? && name in loop.env.state.variables {
        IterationsInOrder(bp, node, d.value + 1, hi, name, values, e1);
        assert c.actions == [Flush(ForEntry)] + loop.actions + [Flush(ForExit)];
        LoopMarksBracketed(loop.actions);
      }
    }
  }

  /** The entry and exit flushes of a loop are not loop marks. */
  lemma LoopMarksBracketed(acts: seq<Action>)
    ensures LoopMarks([Flush(ForEntry)] + acts + [Flush(ForExit)]) == LoopMarks(acts)
  {
    LoopMarksAppend([Flush(ForEntry)] + acts, [Flush(ForExit)]);
    LoopMarksAppend([Flush(ForEntry)], acts);
    assert LoopMarks([Flush(ForEntry)]) == [];
    assert LoopMarks([Flush(ForExit)]) == [];
  }

  /** The queue of a `for` loop over the values the table holds for `name`. */
  predicate ForShape(c: Compiled, name: string, table: Vars) {
    && name in table && LoopMarks(c.actions) == Iterations(name, table[name])
    && |c.actions| >= 2 && c.actions[0] == Flush(ForEntry) && c.actions[|c.actions| - 1] == Flush(ForExit)
    && name !in c.env.state.variables
  }

  /** The `k`-th value sets the iterator at position `2k` and its iteration ends at `2k + 1`. */
  lemma {:induction false} IterationsAt(name: string, values: seq<string>, k: nat)
    requires k < |values|
    ensures Iterations(name, values)[2 * k] == SetLoopIterator(name, values[k])
    ensures Iterations(name, values)[2 * k + 1] == Flush(ForIterate)
    decreases k
  {
    if k > 0 {
      IterationsAt(name, values[1..], k - 1);
      var r := Iterations(name, values);
      assert r == [SetLoopIterator(name, values[0]), Flush(ForIterate)] + Iterations(name, values[1..]);
      assert r[2 * k] == Iterations(name, values[1..])[2 * (k - 1)];
      assert r[2 * k + 1] == Iterations(name, values[1..])[2 * (k - 1) + 1];
    }
  }

  /** The clause at `i`: a truth action and then the gate for the same condition
      (for `else`, the else truth and an else gate). */
  predicate ClauseAt(acts: seq<Action>, i: nat)
    requires i + 1 < |acts|
  {
    && acts[i + 1].GateClause?
    && (acts[i].FindTruth? || acts[i].ElseTruth?)
    && (acts[i].FindTruth? ==> acts[i + 1].cond == acts[i].cond && !acts[i + 1].isElse)
    && (acts[i].ElseTruth? ==> acts[i + 1].isElse)
  }

  predicate Clauses(acts: seq<Action>) {
    |acts| % 2 == 0 && forall i :: 0 <= i < |acts| && i % 2 == 0 ==> ClauseAt(acts, i)
  }

  lemma ClausesCons(pair: seq<Action>, rest: seq<Action>)
    requires |pair| == 2 && ClauseAt(pair, 0) && Clauses(rest)
    ensures Clauses(pair + rest)
  {
    var acts := pair + rest;
    forall i | 0 <= i < |acts| && i % 2 == 0 ensures ClauseAt(acts, i) {
      if i == 0 {
        assert acts[0] == pair[0] && acts[1] == pair[1];
      } else {
        assert acts[i] == rest[i - 2] && acts[i + 1] == rest[i - 1];
        assert ClauseAt(rest, i - 2);
      }
    }
  }

  /** Each clause of an `if` node contributes a truth action and its gate, and
      nothing else is queued at compile time (also when compilation stops early). */
  lemma {:induction false} IfQueuesClauses(bp: Bashparser, parts: seq<Node>, earlier: seq<string>, env: Env)
    ensures Clauses(CompileIf(bp, parts, earlier, env).actions)
    decreases |parts|
  {
    if |parts| > 0 && parts[0].word.Some? {
      var isElse := parts[0].word == Some("else");
      var rest := parts[1..];
      if isElse || |rest| >= 2 {
        var cond := if isElse then "" else bp.render(rest[0]);
        var tail := if isElse then rest else rest[2..];
        var n := BodyLength(tail);
        var after := tail[n..];
        if |after| > 0 && after[0].word.Some? {
          var next := if after[0].word == Some("fi") then after[1..] else after;
          var truth := if isElse then ElseTruth else FindTruth(cond);
          var pair := [truth, GateClause(cond, tail[..n], earlier, isElse)];
          var more := if |cond| > 0 then earlier + [cond] else earlier;
          IfQueuesClauses(bp, next, more, env);
          assert ClauseAt(pair, 0);
          ClausesCons(pair, CompileIf(bp, next, more, env).actions);
        }
      }
    }
  }

  lemma {:induction false} EarlierHeldDefined(truths: map<string, Truth>, conds: seq<string>)
    requires forall k :: 0 <= k < |conds| ==> conds[k] in truths
    ensures EarlierHeld(truths, conds).Ok?
    decreases |conds|
  {
    if |conds| > 0 && truths[conds[0]] != Str("t") {
      assert forall k :: 0 <= k < |conds[1..]| ==> conds[1..][k] == conds[k + 1];
      EarlierHeldDefined(truths, conds[1..]);
    }
  }

  /** Once an earlier clause's condition is stored as the text "t", a later gate
      leaves the machine as it is. */
  lemma GateSkipsAfterHeldClause(bp: Bashparser, cond: string, body: seq<Node>, earlier: seq<string>, isElse: bool, m: Machine)
    requires forall k :: 0 <= k < |earlier| ==> earlier[k] in m.env.state.truths
    requires exists k :: 0 <= k < |earlier| && m.env.state.truths[earlier[k]] == Str("t")
    ensures Gate(bp, cond, body, earlier, isElse, m) == Fine(m)
  {
    EarlierHeldDefined(m.env.state.truths, earlier);
  }

  /** A condition that printed output passes: after its check, a gate with no
      earlier clause holding puts the body, between the enter and exit flushes, in
      front of what was pending. A condition that printed nothing fails, and the
      gate leaves the machine as it is. */
  lemma ExecutedConditionGates(bp: Bashparser, op: Operator, cond: string, body: seq<Node>, earlier: seq<string>, m: Machine)
    requires EarlierHeld(ExecIf(bp, op, CheckBooleanPassed(cond), m).m.env.state.truths, earlier) == Ok(false)
    ensures var m1 := ExecIf(bp, op, CheckBooleanPassed(cond), m).m;
      var o := Gate(bp, cond, body, earlier, false, m1);
      && (m.env.state.stdio.OUT == "" ==> o == Fine(m1))
      && (m.env.state.stdio.OUT != "" && CompileEach(bp, body, m1.env).err.None? ==>
            o.err.None? && |o.m.stack| > |m1.stack| + 1 && o.m.stack[0] == Flush(IfEnter)
            && EndsWith(o.m.stack, m1.stack) && o.m.stack[|o.m.stack| - |m1.stack| - 1] == Flush(IfExit))
      && m1.env.state.stdio.OUT == ""
  {
    var m1 := ExecIf(bp, op, CheckBooleanPassed(cond), m).m;
    assert m1.env.state.truths[cond] == Str(if m.env.state.stdio.OUT == "" then "f" else "t");
    if m.env.state.stdio.OUT != "" {
      var c := CompileEach(bp, body, m1.env);
      if c.err.None? {
        var st := [Flush(IfEnter)] + c.actions + [Flush(IfExit)] + m1.stack;
        assert Gate(bp, cond, body, earlier, false, m1).m.stack == st;
        assert st[|st| - |m1.stack|..] == m1.stack;
        assert st[|st| - |m1.stack| - 1] == Flush(IfExit);
      }
    }
  }

  /** The operator's yes or no is stored as a boolean, which is never the text
      "t", so the gate of a condition answered that way never runs its body: it
      leaves the machine as it is, or raises. */
  lemma AnsweredConditionNeverOpens(bp: Bashparser, op: Operator, cond: string, body: seq<Node>, earlier: seq<string>, m: Machine)
    requires cond !in m.env.state.truths && op.truth(cond) != AnswerExecute
    ensures FindTruthStep(bp, op, cond, m).err.None?
    ensures var m1 := FindTruthStep(bp, op, cond, m).m;
      cond in m1.env.state.truths && m1.env.state.truths[cond].Bool?
      && Gate(bp, cond, body, earlier, false, m1).m == m1
  {
  }

  /** Binding distinct names one after the other gives each its one-element value
      and leaves every other variable as it was. */
  lemma {:induction false} BindAllBinds(s: StateValue, args: seq<(string, string)>)
    requires forall i, j :: 0 <= i < j < |args| ==> args[i].0 != args[j].0
    ensures forall k :: 0 <= k < |args| ==> args[k].0 in BindAll(s, args).variables && BindAll(s, args).variables[args[k].0] == [args[k].1]
    ensures forall x :: (forall k :: 0 <= k < |args| ==> args[k].0 != x) ==>
      (x in BindAll(s, args).variables <==> x in s.variables) && (x in s.variables ==> BindAll(s, args).variables[x] == s.variables[x])
    decreases |args|
  {
    if |args| > 0 {
      var s1 := s.SetVariable(args[0].0, Scalar(args[0].1));
      assert forall i, j :: 0 <= i < j < |args[1..]| ==> args[1..][i].0 != args[1..][j].0 by {
        forall i, j | 0 <= i < j < |args[1..]| ensures args[1..][i].0 != args[1..][j].0 {
          assert args[1..][i] == args[i + 1] && args[1..][j] == args[j + 1];
        }
      }
      BindAllBinds(s1, args[1..]);
      assert BindAll(s, args) == BindAll(s1, args[1..]);
      forall k | 0 <= k < |args|
        ensures args[k].0 in BindAll(s, args).variables && BindAll(s, args).variables[args[k].0] == [args[k].1]
      {
        if k > 0 {
          assert args[1..][k - 1] == args[k];
        } else {
          assert forall k2 :: 0 <= k2 < |args[1..]| ==> args[1..][k2].0 != args[0].0 by {
            forall k2 | 0 <= k2 < |args[1..]| ensures args[1..][k2].0 != args[0].0 {
              assert args[1..][k2] == args[k2 + 1];
            }
          }
        }
      }
      forall x | (forall k :: 0 <= k < |args| ==> args[k].0 != x)
        ensures (x in BindAll(s, args).variables <==> x in s.variables) && (x in s.variables ==> BindAll(s, args).variables[x] == s.variables[x])
      {
        assert args[0].0 != x;
        assert forall k :: 0 <= k < |args[1..]| ==> args[1..][k].0 != x by {
          forall k | 0 <= k < |args[1..]| ensures args[1..][k].0 != x {
            assert args[1..][k] == args[k + 1];
          }
        }
      }
    }
  }

  /** A function call binds its `k`-th argument, after substitution, to the name
      "k" (counting from 1), and leaves every other variable of the caller visible. */
  lemma CallBindsPositionals(bp: Bashparser, s: StateValue, args: seq<Node>)
    requires CallArguments(bp, s, args).Ok?
    ensures var bound := CallArguments(bp, s, args).value;
      var t := BindAll(s.LowerScope(), bound);
      && |bound| == |args|
      && (forall k :: 0 <= k < |bound| ==> bound[k].0 == Positional(k + 1) && bound[k].0 in t.variables && t.variables[bound[k].0] == [bound[k].1])
      && (forall x :: (forall k :: 0 <= k < |bound| ==> bound[k].0 != x) ==>
            (x in t.variables <==> x in s.variables) && (x in s.variables ==> t.variables[x] == s.variables[x]))
  {
    var bound := CallArguments(bp, s, args).value;
    PositionalsDistinct(bound);
    BindAllBinds(s.LowerScope(), bound);
  }

  lemma PositionalsDistinct(bound: seq<(string, string)>)
    requires forall k :: 0 <= k < |bound| ==> bound[k].0 == Positional(k + 1)
    ensures forall i, j :: 0 <= i < j < |bound| ==> bound[i].0 != bound[j].0
  {
    forall i, j | 0 <= i < j < |bound| ensures bound[i].0 != bound[j].0 {
      NatToStringInjective(i + 1, j + 1);
    }
  }

  /** Leaving a function scope undoes entering it: the variables, functions,
      directory and socket are the caller's again, and the screen is the caller's
      followed by the output that was pending when the scope was left. */
  lemma FunctionScopeRestores(bp: Bashparser, args: seq<(string, string)>, m: Machine)
    ensures var inside := ExecScope(bp, EnterFunctionScope(args), m).m;
      var back := ExecScope(bp, ExitFunctionScope, inside).m.env.state;
      var s := m.env.state;
      && back.variables == s.variables && back.functions == s.functions
      && back.workingDir == s.workingDir && back.stdio == s.stdio
      && back.screen == s.screen + (if s.stdio.OUT == "" then "" else s.stdio.OUT + "\n")
  {
    var s := m.env.state;
    var t := BindAll(s.LowerScope(), args);
    var inside := ExecScope(bp, EnterFunctionScope(args), m).m;
    assert inside.env.state == t;
    assert ExecScope(bp, ExitFunctionScope, inside).m.env.state == t.PrintToScreen().RaiseScope();
    assert t == s.LowerScope().(variables := t.variables);
    ScopeRoundTrip(s, t.variables);
  }

  /** Lowering the scope, changing only the variables, flushing and raising the
      scope again gives back everything but the screen, which gains the output. */
  lemma ScopeRoundTrip(s: StateValue, vars: Vars)
    ensures var back := s.LowerScope().(variables := vars).PrintToScreen().RaiseScope();
      && back.variables == s.variables && back.functions == s.functions
      && back.workingDir == s.workingDir && back.stdio == s.stdio
      && back.screen == s.screen + (if s.stdio.OUT == "" then "" else s.stdio.OUT + "\n")
  {
    var t := s.LowerScope().(variables := vars);
    var p := t.PrintToScreen();
    assert p.variablesAbove == s.variablesAbove + [s.variables];
    assert p.functionsAbove == s.functionsAbove + [s.functions];
    assert p.workingDirsAbove == s.workingDirsAbove + [s.workingDir];
    assert p.stdiosAbove == s.stdiosAbove + [s.stdio];
    assert p.screensAbove == s.screensAbove + [s.screen];
    assert p.screen == (if s.stdio.OUT == "" then "" else s.stdio.OUT + "\n");
  }

  /** A list operator consumes the previous command's output from IN; `execute`
      then follows the operator as `Separate` says, and an unknown operator raises. */
  lemma SeparatorReadsPrevious(bp: Bashparser, op: Operator, sep: string, m: Machine)
    ensures var o := Exec(bp, op, ListSeparator(sep), m);
      && o.m.env.state.stdio.IN == "" && o.m.stack == m.stack
      && (o.err.None? <==> sep in {"||", "&&", "&", ";", "\n"})
      && (o.err.None? ==> o.m.env.execute == Separate(sep, m.env.state.stdio.IN, m.env.execute).value)
  {
  }

  /** Probe `l` lands on a character of the word other than `$`. */
  predicate Misses(w: string, orig: int, l: nat) {
    PyIndex(w, Probe(orig, l)).Some? && PyIndex(w, Probe(orig, l)).value != '$'
  }

  /** The `$` search finds the nearest `$` in probing order: the position it
      returns is probe `j`, and every probe from `k` up to `j` missed. */
  lemma {:induction false} DollarSearchNearest(w: string, orig: int, k: nat) returns (j: nat)
    requires DollarSearch(w, orig, k).Ok?
    ensures k <= j && Probe(orig, j) == DollarSearch(w, orig, k).value
    ensures forall l :: k <= l < j ==> Misses(w, orig, l)
    decreases 2 * (Abs(orig) + |w|) + 2 - k
  {
    var c := PyIndex(w, Probe(orig, k));
    if c.value == '$' {
      j := k;
    } else {
      assert Misses(w, orig, k);
      j := DollarSearchNearest(w, orig, k + 1);
    }
  }

  /** The probes visit the start position, then alternate left and right at growing distance. */
  lemma ProbeOrder(orig: int, d: nat)
    ensures Probe(orig, 0) == orig
    ensures Probe(orig, 2 * d + 1) == orig - (d + 1) && Probe(orig, 2 * d + 2) == orig + (d + 1)
  {
  }
}
