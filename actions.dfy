/**
 * The deferred operations the interpreter queues while it walks a syntax
 * tree. The source queues `ActionEntry` objects that hold a closure, its
 * arguments and a description; here an action is a constructor holding the
 * same arguments, and `Describe` gives the description the source shows and
 * compares.
 *
 * Command nodes whose words a command substitution rewrites are kept in a
 * table of cells, and the actions that read or rewrite such a node hold the
 * index of its cell.
 */
module Actions {
  import opened Wrappers
  import opened PyStr
  import opened BashAst

  datatype Action =
    | InitializeCommand
    | ExitNodeCleanup
    | PipelineTransfer
      /** The actions that only flush pending output to the screen; `text` is their description. */
    | Flush(text: string)
    | PrepareRedirects
    | LoadRedirect(redirect: Redirect)
    | SaveRedirect(redirect: Redirect)
    | ExitRedirects
    | ListSeparator(op: string)
    | SetLoopIterator(name: string, value: string)
    | FindTruth(cond: string)
    | ElseTruth
      /** Runs `body` when no earlier clause held and this one does (or is `else`). */
    | GateClause(cond: string, body: seq<Node>, earlier: seq<string>, isElse: bool)
    | CheckBooleanPassed(cond: string)
    | EnterSubshellEnv
    | ExitSubshellEnv
    | EnterCmdSub(sub: Node, text: string)
      /** `cell` holds the command node, `word` picks its part, `sub` is the substitution
          and `index` its position among that part's parts. */
    | ExitCmdSub(cell: nat, word: nat, sub: Node, index: int, text: string)
      /** `code` is the command's text as rendered when it was compiled. */
    | CommandNode(cell: nat, name: string, code: string)
    | EnterFunctionScope(args: seq<(string, string)>)
    | ExitFunctionScope
    | VariableAssignment(cell: nat, code: string)

  const ListEntry := "list node entry"
  const NewCommand := "Resetting for new command"
  const ForEntry := "for loop entry"
  const ForIterate := "iterate for loop"
  const ForExit := "Exit for loop"
  const IfEnter := "Enter If Statement Execution Block"
  const IfExit := "Exit If Statement Execution Block"

  /** `str(action)`: the description the source gives each entry. */
  function Describe(a: Action): (t: string)
    ensures !a.Flush? ==> |t| > 0
  {
    match a
    case InitializeCommand => "Initialize state for command"
    case ExitNodeCleanup => "Exit Node Cleanup"
    case PipelineTransfer => "pipeline transfer"
    case Flush(t) => t
    case PrepareRedirects => "Prepare compound node for redirects"
    case LoadRedirect(_) => "Get information from redirects"
    case SaveRedirect(_) => "Move information out to redirects"
    case ExitRedirects => "Exit compound node redirects"
    case ListSeparator(op) => "list node transfer character: " + ReplaceChar(op, '\n', "\\n")
    case SetLoopIterator(_, _) => "Set loop iterator value for next itr"
    case FindTruth(_) => "Determine boolean statement truth"
    case ElseTruth => "Determine if else should execute"
    case GateClause(_, _, _, _) => "Possibly append actions to stack"
    case CheckBooleanPassed(_) => "Determine if boolean execution is true"
    case EnterSubshellEnv => "Entering sub-shell env"
    case ExitSubshellEnv => "Exiting sub-shell env"
    case EnterCmdSub(_, t) => "Enter Command Substitution Env: " + t
    case ExitCmdSub(_, _, _, _, t) => "Exiting Command Substitution Env: " + t
    case CommandNode(_, name, _) => "Command node: " + name
    case EnterFunctionScope(_) => "Enter the function scope"
    case ExitFunctionScope => "Exit the function scope"
    case VariableAssignment(_, _) => "Variable Assignment"
  }

  /** An entry's `code`: the text a host shell would run in its place. Only the
      command-substitution entries, the command entry and the assignment entry carry
      one; for the others it is `None`, which, like an empty text, counts as false. */
  function Code(a: Action): (c: string)
    ensures c != "" ==> a.EnterCmdSub? || a.ExitCmdSub? || a.CommandNode? || a.VariableAssignment?
    ensures a.EnterCmdSub? ==> c == a.text
    ensures a.ExitCmdSub? ==> c == a.text
  {
    match a
    case EnterCmdSub(_, t) => t
    case ExitCmdSub(_, _, _, _, t) => t
    case CommandNode(_, _, code) => code
    case VariableAssignment(_, code) => code
    case _ => ""
  }

  /** `ActionEntry.__eq__`: an entry equals anything whose text is its description. */
  predicate EntryEquals(a: Action, other: string) {
    Describe(a) == other
  }

  /** Two action stacks compare equal when their descriptions agree position by position. */
  predicate SameStack(xs: seq<Action>, ys: seq<Action>) {
    |xs| == |ys| && forall i :: 0 <= i < |xs| ==> EntryEquals(xs[i], Describe(ys[i]))
  }

  /** Equality of entries is equality of descriptions, so it is an equivalence. */
  lemma SameStackIsEquivalence(xs: seq<Action>, ys: seq<Action>, zs: seq<Action>)
    ensures SameStack(xs, xs)
    ensures SameStack(xs, ys) ==> SameStack(ys, xs)
    ensures SameStack(xs, ys) && SameStack(ys, zs) ==> SameStack(xs, zs)
  {
  }

  /** A list separator's description shows a newline operator as the two characters
      backslash and n, so the description never holds a raw newline. */
  lemma SeparatorTextHasNoNewline(op: string)
    ensures forall i :: 0 <= i < |Describe(ListSeparator(op))| ==> Describe(ListSeparator(op))[i] != '\n'
  {
    NoNewlineAfterEscape(op);
    var prefix := "list node transfer character: ";
    var t := Describe(ListSeparator(op));
    assert t == prefix + ReplaceChar(op, '\n', "\\n");
    forall i | 0 <= i < |t|
      ensures t[i] != '\n'
    {
      if i >= |prefix| {
        assert t[i] == ReplaceChar(op, '\n', "\\n")[i - |prefix|];
      }
    }
  }

  lemma {:induction false} NoNewlineAfterEscape(s: string)
    ensures forall i :: 0 <= i < |ReplaceChar(s, '\n', "\\n")| ==> ReplaceChar(s, '\n', "\\n")[i] != '\n'
    decreases |s|
  {
    if |s| > 0 {
      NoNewlineAfterEscape(s[1..]);
      var head: string := if s[0] == '\n' then "\\n" else [s[0]];
      var r := ReplaceChar(s, '\n', "\\n");
      assert r == head + ReplaceChar(s[1..], '\n', "\\n");
      forall i | 0 <= i < |r|
        ensures r[i] != '\n'
      {
        if i >= |head| {
          assert r[i] == ReplaceChar(s[1..], '\n', "\\n")[i - |head|];
        }
      }
    }
  }
}
