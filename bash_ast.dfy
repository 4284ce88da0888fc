/**
 * The bash syntax tree the interpreter walks, and the external parts it
 * leans on. The tree stands for the nodes of the `bashparser` library
 * (kinds such as "command", "list", "pipeline", "word", with their
 * `word`, `parts`, `pos`, `op`, `list`, `redirects` and `command`
 * attributes; an attribute a node lacks is `None` or empty). The library's
 * helpers and the interactive answers of the person at the terminal are
 * parameters of the model rather than code of it.
 */
module BashAst {
  import opened Wrappers

  type Vars = map<string, seq<string>>
  type Functions = map<string, Node>

  /** A redirect of a compound node: `type` is "<" or ">", `output` names the file. */
  datatype Redirect = Redirect(rtype: string, output: Node)

  datatype Node = Node(
    kind: string,
    word: Option<string>,
    parts: seq<Node>,
    pos: (int, int),
    op: Option<string>,
    list: seq<Node>,
    redirects: seq<Redirect>,
    command: Option<Node>)

  /** The `bashparser` helpers: rendering (`str(NodeVisitor(n))`), parsing,
      variable substitution, and the variable and function tables. */
  datatype Bashparser = Bashparser(
    render: Node -> string,
    parse: string -> seq<Node>,
    replaceVariables: (seq<Node>, Vars) -> seq<Node>,
    substituteVariables: (seq<Node>, Vars) -> seq<Node>,
    updateVariableList: (Node, Vars) -> Vars,
    buildFnTable: (Node, Functions) -> Functions,
    resolveFunctions: (Node, Functions, Vars) -> seq<Node>)

  /** The person's answer when a condition's truth is unknown: true, false, or
      "execute it" (the source's t/f/e prompt). */
  datatype TruthAnswer = AnswerTrue | AnswerFalse | AnswerExecute

  /** The answers and host effects the interpreter asks for: the truth prompt, the
      skip/execute prompt for an unknown command (true means execute), the host file
      read for an input redirect, the output of running text in the host shell, and
      the page `wget` downloads (`None` for an invalid URL). */
  datatype Operator = Operator(
    truth: string -> TruthAnswer,
    executeUnknown: string -> bool,
    hostFile: string -> string,
    shell: string -> Option<string>,
    wget: string -> Option<string>)

  predicate HasWord(n: Node, w: string) {
    n.word == Some(w)
  }
}
