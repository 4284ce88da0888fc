# jiujitsu in Dafny

jiujitsu is a sandboxed interpreter for a subset of bash that you can step through one action at a time. This project models its core in Dafny and proves properties of that model. A bash program is parsed into bashparser nodes. `InterpreterBase.build` compiles the nodes into an *action stack*, a first-in-first-out queue of deferred operations. `inch` pops one action and executes it, and `run` repeats `inch` until the queue is empty. Some actions put new actions at the front of the queue at run time: an `if` gate, a call to a user function, entering a command substitution. The actions work on a simulated `State`, which holds:

- variables, truths and functions;
- a file system of `File`s and the standard-I/O `FileSocket`;
- the screen log and the working directory;
- parallel scope stacks, pushed by `lower_scope` and popped by `raise_scope`.

The built-in commands `echo`, `cd`, `chmod`, `rm`, `cp`, `mv`, `unset` and `shift` change that state, and nothing reaches the host.

On top of the interpreter sits the Judo shell (`jInterpreter.py`), which keeps a history of `Record`s. Each record is a frozen copy of the interpreter, a name and an action. The shell provides save points, undo, skip, stepping (`next`, `inch`) and commands that edit the live state (`var`, `fs`, `truth`, `history`, `alias`, `dir`). Judo's own command language has two front ends:

- the character-level `Parser` in `build/lib/jiujitsu/jParser.py`, which returns `Flag`s and `Arg`s (the node types of `jNode.py`);
- the older pipeline of the token `Lexer` (`jLexer.py`, `jToken.py`) and the recursive-descent `Parser` of `jParser.py`.

The model has two layers.

- **Values.** Datatypes, functions and lemmas describe what each operation computes: a `File` or `FileSocket` value, a `StateValue`, an `Action` queue, a `Token` list. These functions carry the proved properties.
- **Objects.** Where the source updates objects in place, the model does the same with a class: `Primitives.State` (whose `Write`, `Read` and `Transfer` update the live socket in place), `Interpreting.Interpreter`, `JudoShell.Shell`, `JudoLex.Lexer`, `JudoParse.Parser` and `JudoProgram.Parser`.
  - Their fields are the source's fields, and their methods loop as the source does.
  - Each method's `ensures` ties the new state to the value-level function of the old state.

Python closures on the action stack become the `Actions.Action` datatype, a tag with arguments, and `Engine.Exec` interprets it. The bashparser library is not part of this model. It appears as a `BashAst.Bashparser` parameter whose fields are the library's functions:

- `NodeVisitor` rendering and `parse`;
- `replace_variables` and `substitute_variables`;
- `update_variable_list`, `build_fn_table` and `resolve_functions`.

The person at the keyboard and the host machine appear as a `BashAst.Operator` parameter:

- the t/f/e truth prompt and the unknown-command prompt;
- the file read by a `<` redirect;
- the host shell and the `wget` page.

Python exceptions are modelled as `Wrappers.Result` errors that name the exception (`KeyError`, `IndexError`, `TypeError`, `ValueError`, `ParseError`, `LexerError`, …). Where the source keeps a partially updated state after an exception, the model returns that state together with the error.

### Where the code and its documentation part ways

Three defects of the source are listed under "## Findings". For each of them the model states both halves: a member that behaves as the code is written, with a lemma that shows the defect, and a corrected member. The operational path runs the corrected member:

- `rm` in `Builtins.Call`, and so in `Engine.ExecCommand`, runs the corrected `Builtins.Rm`. `Builtins.RmAsWritten` is the source's `f_rm`.
- The lexer's quote branch (`JudoLex.QuoteStep`, used by `TokenAt`, `NextToken`, `AllTokens` and the `Lexer` methods) yields the intended ARG token. `JudoLex.QuoteTokenAsWritten` is the source's `QUOTE`, which always raises `TypeError`.
- `JudoNodes.ProgramEquals` is the source's program equality, built on the one-directional `CommandEqual`. `JudoNodes.ProgramEquivalent` is the intended one.

In every other case the model follows the code:

- The `if` gate compares a clause's stored truth with the string `'t'`, but the truth prompt and `set_truth` store booleans. A `then` body therefore runs only through the "execute" answer, or when a truth was stored as the text `t` (jiujitsu/bpInterpreterBase.py:483-485).
- The `execute` flag of a list is written by the separator actions and never read, so `&&` and `||` do not skip anything (jiujitsu/bpInterpreterBase.py:371-384).
- `State.__eq__` compares STDIO, working directory, variables, file system, open sockets and truths. It ignores the screen, the functions and the scope stacks (jiujitsu/bpPrimitives.py:71-80).
- `next -p` calls `self.state`, which the shell does not define. It therefore stops with `AttributeError` after the first pass (jiujitsu/jInterpreter.py:163-164).
- `undo` decrements `index` instead of restoring it from `index_history`. An undo of a plain save point therefore moves the index back although no node was undone (jiujitsu/jInterpreter.py:175-181).
- `history -r` starts again from a fresh interpreter with a single `init` record, but keeps `index` and `index_history` (jiujitsu/jInterpreter.py:435-440).
- `fs` whose arguments end in a lone name fails with `IndexError` on the missing `:` instead of printing its usage message (jiujitsu/jInterpreter.py:378-385).
- The error message of `escape_char` applies a unary `+` to the current character, which is a string, so an unknown escape raises `TypeError` instead of `ParseError` (build/lib/jiujitsu/jParser.py:44).
- `Command` raises `ParserError`, a name that is not defined, so an invalid flag or argument gives `NameError` (jNode.py:39-43).

## Model

| member | source | states |
|---|---|---|
| FileSystem.File.SetPermissions | jiujitsu/bpFileSystem.py:18-19 | only the permission string changes; name and contents are kept |
| FileSystem.File.Json | jiujitsu/bpFileSystem.py:21-22 | the three keys carry the name, the permissions and `str` of the contents, which is `None` for a placeholder file |
| FileSystem.FileFromJson | jiujitsu/bpFileSystem.py:2-5 | the file built from a json dictionary writes back to that same dictionary, and always has contents |
| FileSystem.File.Equals | jiujitsu/bpFileSystem.py:12-16 | `File.__eq__` holds exactly when name, contents and permissions are all equal, which is equality of files |
| FileSystem.FileJsonRoundTrip | jiujitsu/bpFileSystem.py:2-5 | a file rebuilt from its json is the same file, except that missing contents come back as the text `None` |
| FileSystem.FileSocket.Write | jiujitsu/bpFileSystem.py:37-42 | the text is appended to OUT; IN and the id are untouched |
| FileSystem.FileSocket.Read | jiujitsu/bpFileSystem.py:44-47 | returns what IN held and leaves IN empty, OUT and the id untouched |
| FileSystem.FileSocket.Transfer | jiujitsu/bpFileSystem.py:49-51 | OUT becomes IN and OUT is emptied |
| FileSystem.FileSocket.Peek | jiujitsu/bpFileSystem.py:53-54 | returns IN without consuming it; `FileSystem.ReadConsumes` shows a read leaves nothing for it to show |
| FileSystem.FileSocket.Json | jiujitsu/bpFileSystem.py:56-61 | the dictionary carries IN, OUT and the id |
| FileSystem.SocketFromJson | jiujitsu/bpFileSystem.py:26-29 | the socket built from a json dictionary writes back to that same dictionary |
| FileSystem.SocketJsonRoundTrip | jiujitsu/bpFileSystem.py:26-29 | a socket rebuilt from its json is the same socket |
| FileSystem.FileSocket.Equals | jiujitsu/bpFileSystem.py:31-35 | `FileSocket.__eq__` holds exactly when OUT, id and IN agree, which is equality of sockets |
| FileSystem.WritesAccumulate | jiujitsu/bpFileSystem.py:37-42 | two writes are one write of the concatenated text |
| FileSystem.PipeHop | jiujitsu/bpFileSystem.py:37-51 | what was written before a transfer is exactly what the next read gets, and the socket ends empty |
| FileSystem.ReadConsumes | jiujitsu/bpFileSystem.py:44-54 | after a read, a second read and a peek both get the empty text |
| Primitives.StateValue.LowerScope | jiujitsu/bpPrimitives.py:98-114 | each of screen, socket, directory, variables and functions is pushed on its own stack, the live copies are kept, the screen starts empty, and nothing else changes |
| Primitives.StateValue.RaiseScope | jiujitsu/bpPrimitives.py:116-131 | each non-empty stack is popped back into its live value (the saved screen is put in front of the current one); an empty stack leaves its value alone |
| Primitives.StateValue.PopStdio | jiujitsu/bpPrimitives.py:117-119 | a saved socket, if there is one, replaces the live socket and leaves its stack; only those two fields change |
| Primitives.StateValue.PopWorkingDir | jiujitsu/bpPrimitives.py:120-122 | the same for the working directory |
| Primitives.StateValue.PopVariables | jiujitsu/bpPrimitives.py:123-125 | the same for the variables |
| Primitives.StateValue.PopFunctions | jiujitsu/bpPrimitives.py:126-128 | the same for the functions |
| Primitives.StateValue.PopScreen | jiujitsu/bpPrimitives.py:129-131 | the saved screen is put in front of the current one and leaves its stack |
| Primitives.StateValue.EnterSubshell | jiujitsu/bpPrimitives.py:86-93 | a lowered scope with a fresh socket 0, back in the starting directory |
| Primitives.StateValue.UpdateFileSystem | jiujitsu/bpPrimitives.py:157-168 | the file is stored under its resolved path with the given contents and permissions, and no other entry changes; an empty name raises `IndexError` |
| Primitives.StateValue.SetVariable | jiujitsu/bpPrimitives.py:179-181 | the name maps to the value wrapped in a list, and only that entry changes; `Primitives.ScopedChangesAreUndone` shows a variable set inside a scope is gone once the scope is raised |
| Primitives.StateValue.SetTruth | jiujitsu/bpPrimitives.py:194-197 | the name maps to the boolean, and only the truths change |
| Primitives.StateValue.TestTruth | jiujitsu/bpPrimitives.py:200-205 | a stored truth is returned, and `None` exactly when the name has none |
| Primitives.StateValue.UnsetFunctions | jiujitsu/bpPrimitives.py:251-261 | raises `TypeError` exactly when a saved scope holds the name (the source deletes from a list by a string key); otherwise the name leaves the live table and the result says whether it was there |
| Primitives.StateValue.UnsetVariables | jiujitsu/bpPrimitives.py:263-274 | the same for variables |
| Primitives.StateValue.SetStdin | jiujitsu/bpPrimitives.py:287-293 | a given value replaces IN; `None` changes nothing |
| Primitives.StateValue.SetStdout | jiujitsu/bpPrimitives.py:295-301 | a given value replaces OUT; `None` changes nothing |
| Primitives.StateValue.PrintToScreen | jiujitsu/bpPrimitives.py:303-306 | pending output becomes a screen line ending in a newline and OUT is emptied; with nothing pending the state is unchanged |
| Primitives.StateValue.ClearScreen | jiujitsu/bpPrimitives.py:308-309 | only the screen changes, to empty; `Primitives.State.ClearScreen` carries it onto the mutable state |
| Primitives.StateValue.CopyFile | jiujitsu/bpPrimitives.py:314-316 | afterwards both names are present and the target holds the source's file; a missing source is first created empty |
| Primitives.StateValue.RemoveFile | jiujitsu/bpPrimitives.py:318-320 | the entry is gone if it was there, and nothing else changes; `Primitives.MoveFile` and `Builtins.MvMovesFile` build on it |
| Primitives.StateValue.ResolveFunctions | jiujitsu/bpPrimitives.py:325-326 | succeeds exactly when the helper returns a node, and then yields its first node |
| Primitives.ResolvePath | jiujitsu/bpPrimitives.py:158-166 | a path exists exactly when the name is not empty (the source indexes `name[0]`) |
| Primitives.ResolvePathShape | jiujitsu/bpPrimitives.py:158-166 | absolute names are kept, relative ones go under the location with a leading `./` dropped, and one trailing `/` is removed |
| Primitives.UpdateThenLookup | jiujitsu/bpPrimitives.py:157-168 | after storing, the resolved path holds the new file and every other key is unchanged |
| Primitives.ShiftFrom | jiujitsu/bpPrimitives.py:187-192 | the loop of `shift_variables` from position `i`; its only failure is `KeyError` |
| Primitives.ShiftStepDecreases | jiujitsu/bpPrimitives.py:189-191 | each pass of the loop shrinks the set of positional names still ahead, so the loop ends |
| Primitives.ShiftMovesDown | jiujitsu/bpPrimitives.py:187-192 | with "1".."n" present and "n+1" absent, every value moves down one name, "n" is removed, and other variables are untouched |
| Primitives.ShiftVariablesRun | jiujitsu/bpPrimitives.py:187-192 | `shift` on positional variables "1".."n" leaves "1".."n-1" |
| Primitives.ShiftWithoutArguments | jiujitsu/bpPrimitives.py:187-192 | with no positional variables the final `del` raises `KeyError` |
| Primitives.Initial | jiujitsu/bpPrimitives.py:51-69 | a new state starts in its own working directory with empty scope stacks and an empty screen |
| Primitives.FsOfListLastWins | jiujitsu/bpPrimitives.py:43-47 | a name is in the table built from a json file list exactly when some file has it, and it maps to the last such file |
| Primitives.FsFromList | jiujitsu/bpPrimitives.py:43-47 | the constructor's loop builds exactly that table |
| Primitives.ApplyLocalKeepsStacks | jiujitsu/bpPrimitives.py:179-197 | an operation on the current scope leaves every saved scope and the starting directory alone |
| Primitives.ApplyAllKeepsStacks | jiujitsu/bpPrimitives.py:179-197 | so does any sequence of them |
| Primitives.ScopedChangesAreUndone | jiujitsu/bpPrimitives.py:98-131 | lowering a scope, changing variables, functions, directory or socket in it, and raising it again restores what the outer scope had |
| Primitives.MoveFile | jiujitsu/bpPrimitives.py:314-320 | a copy followed by a removal of the source moves the file to the new name |
| Primitives.MoveOntoItself | jiujitsu/bpPrimitives.py:314-320 | copying a file onto itself and removing the source deletes it |
| Primitives.PrintTwice | jiujitsu/bpPrimitives.py:303-306 | `print_to_screen` is idempotent |
| Primitives.SetThenTestTruth | jiujitsu/bpPrimitives.py:194-205 | a stored truth is read back, and other names keep theirs |
| Primitives.LowerScopeKeepsEquality | jiujitsu/bpPrimitives.py:71-80 | `State.__eq__` ignores the screen, the functions and the saved scopes, so lowering a scope keeps the state equal |
| Primitives.State.constructor | jiujitsu/bpPrimitives.py:30-69 | `State()` with every argument left out |
| Primitives.State.FromJson | jiujitsu/bpPrimitives.py:30-69 | a state loaded from json: the socket and the file table are converted from dictionaries |
| Primitives.State.Assign | jiujitsu/bpPrimitives.py:52-69 | every field takes its value from the given state value |
| Primitives.State.LowerScope | jiujitsu/bpPrimitives.py:98-114 | the fields become `StateValue.LowerScope` of the old state |
| Primitives.State.RaiseScope | jiujitsu/bpPrimitives.py:116-131 | the fields become `StateValue.RaiseScope` of the old state, one stack after another |
| Primitives.State.PopStdio | jiujitsu/bpPrimitives.py:117-119 | the fields become `PopStdio` of the old state |
| Primitives.State.PopWorkingDir | jiujitsu/bpPrimitives.py:120-122 | the fields become `PopWorkingDir` of the old state |
| Primitives.State.PopVariables | jiujitsu/bpPrimitives.py:123-125 | the fields become `PopVariables` of the old state |
| Primitives.State.PopFunctions | jiujitsu/bpPrimitives.py:126-128 | the fields become `PopFunctions` of the old state |
| Primitives.State.PopScreen | jiujitsu/bpPrimitives.py:129-131 | the fields become `PopScreen` of the old state |
| Primitives.State.EnterSubshell | jiujitsu/bpPrimitives.py:86-93 | the fields become `EnterSubshell` of the old state |
| Primitives.State.ExitSubshell | jiujitsu/bpPrimitives.py:95-96 | the fields become `RaiseScope` of the old state |
| Primitives.State.UpdateFileSystem | jiujitsu/bpPrimitives.py:157-168 | the fields become `UpdateFileSystem` of the old state, or stay as they were with `IndexError` |
| Primitives.State.SetVariable | jiujitsu/bpPrimitives.py:179-181 | the fields become `SetVariable` of the old state |
| Primitives.State.UpdateVariableList | jiujitsu/bpPrimitives.py:184-185 | the variables become what the parser helper returns |
| Primitives.State.ShiftVariables | jiujitsu/bpPrimitives.py:187-192 | the loop leaves the state `ShiftVariables` describes, or raises `KeyError` as it does |
| Primitives.State.SetTruth | jiujitsu/bpPrimitives.py:194-197 | the fields become `SetTruth` of the old state |
| Primitives.State.TestTruth | jiujitsu/bpPrimitives.py:200-205 | the stored truth of the name, `None` when there is none |
| Primitives.State.UnsetFunctions | jiujitsu/bpPrimitives.py:251-261 | the loop over saved scopes raises `TypeError` on the first scope that has the name; otherwise the name leaves the live table and the result says whether it was there |
| Primitives.State.UnsetVariables | jiujitsu/bpPrimitives.py:263-274 | the same for variables |
| Primitives.State.Stdin | jiujitsu/bpPrimitives.py:287-293 | IN is replaced by a given value and returned |
| Primitives.State.Stdout | jiujitsu/bpPrimitives.py:295-301 | OUT is replaced by a given value and returned |
| Primitives.State.Write | jiujitsu/bpFileSystem.py:37-42 | the live socket gets the write |
| Primitives.State.Read | jiujitsu/bpFileSystem.py:44-47 | the live socket is read and emptied |
| Primitives.State.Transfer | jiujitsu/bpFileSystem.py:49-51 | the live socket's OUT moves to IN |
| Primitives.State.PrintToScreen | jiujitsu/bpPrimitives.py:303-306 | the fields become `PrintToScreen` of the old state |
| Primitives.State.ClearScreen | jiujitsu/bpPrimitives.py:308-309 | the screen is emptied |
| Primitives.State.CopyFile | jiujitsu/bpPrimitives.py:314-316 | the fields become `CopyFile` of the old state |
| Primitives.State.RemoveFile | jiujitsu/bpPrimitives.py:318-320 | the fields become `RemoveFile` of the old state |
| Primitives.State.BuildFunctions | jiujitsu/bpPrimitives.py:322-323 | the functions become what the parser helper builds |
| Primitives.State.ResolveFunctions | jiujitsu/bpPrimitives.py:325-326 | the first node the helper returns, read from the current tables |
| Actions.Describe | jiujitsu/bpPrimitives.py:19-20 | `str(entry)` is the text the entry was built with, which only a flush entry may leave empty; each case is the text the source gives that entry |
| Actions.EntryEquals | jiujitsu/bpPrimitives.py:25-26 | an entry equals any value whose `str` is its description; `SameStackIsEquivalence` builds on it |
| Actions.SameStackIsEquivalence | jiujitsu/bpPrimitives.py:25-26 | entries compare by their description text, so stack equality is reflexive, symmetric and transitive |
| Actions.SeparatorTextHasNoNewline | jiujitsu/bpInterpreterBase.py:386 | the description of a list separator shows a newline operator as backslash-n, so it never holds a raw newline |
| Engine.Then | jiujitsu/bpInterpreterBase.py:363-368 | the given actions come first, then what the next compilation queued, with its environment and error |
| Engine.Compile | jiujitsu/bpInterpreterBase.py:287-540 | compiling any node only adds cells and queues only actions whose cells exist |
| Engine.CompileNodes | jiujitsu/bpInterpreterBase.py:329-335 | the same for nodes compiled one after another |
| Engine.CompilePipeline | jiujitsu/bpInterpreterBase.py:290-299 | the same for a pipeline's stages and transfers |
| Engine.CompileListParts | jiujitsu/bpInterpreterBase.py:358-387 | the same for a list's commands and separators |
| Engine.LastRedirect | jiujitsu/bpInterpreterBase.py:315-327 | the redirect of the given type that the reversed search meets first, that is the last one; `None` exactly when no redirect has the type |
| Engine.CompileCompound | jiujitsu/bpInterpreterBase.py:306-354 | a compound node's actions keep the cells invariants |
| Engine.DoIndex | jiujitsu/bpInterpreterBase.py:402-403 | the first part whose word is `do`, or `None` when there is none |
| Engine.CompileFor | jiujitsu/bpInterpreterBase.py:389-430 | a `for` node's actions keep the cells invariants, including the `KeyError` paths |
| Engine.CompileIterations | jiujitsu/bpInterpreterBase.py:407-424 | one iteration per value keeps the cells invariants |
| Engine.CompileRange | jiujitsu/bpInterpreterBase.py:415-418 | a loop body keeps the cells invariants |
| Engine.BodyLength | jiujitsu/bpInterpreterBase.py:446-447 | the length of the longest prefix without reserved words: every part before it is not one, the part after it is |
| Engine.CompileIf | jiujitsu/bpInterpreterBase.py:433-517 | an `if` node's clauses keep the cells invariants |
| Engine.CmdSubsOfWord | jiujitsu/bpInterpreterBase.py:543-587 | the substitutions of a word queue an even number of actions, each an enter or an exit that names the word's cell |
| Engine.CmdSubsOfParts | jiujitsu/bpInterpreterBase.py:591-593 | each exit names the command's cell and one of its parts |
| Engine.CompileCommand | jiujitsu/bpInterpreterBase.py:589-669 | a command node's actions keep the cells invariants; a word command queues the substitutions of all its parts and then one command action; a word command without a word is a `TypeError` at compile time, after its substitutions are queued, because the action's description `'Command node: ' + command.word` is built then (line 650); any other command kind is a `ValueError` |
| Engine.DollarSearch | jiujitsu/bpInterpreterBase.py:572-575 | a found position holds `$` under Python indexing |
| Engine.FindDollar | jiujitsu/bpInterpreterBase.py:567-575 | the source's loop finds what `DollarSearch` describes, or raises `IndexError` as it does |
| Engine.Capture | jiujitsu/bpInterpreterBase.py:560-562 | with an empty screen the capture is OUT; otherwise the screen with newlines turned to spaces, then a space and OUT when OUT is not empty |
| Engine.CallArguments | jiujitsu/bpInterpreterBase.py:601-604 | one binding per argument, the k-th named "k" counting from 1 and bound to the argument's substituted word |
| Engine.BindAll | jiujitsu/bpInterpreterBase.py:610-613 | binding arguments changes only the variables |
| Engine.Separate | jiujitsu/bpInterpreterBase.py:371-384 | `||` stops execution when the previous result is the number 0, `&&` when it is a non-zero number, `&` keeps it, `;` and newline restore it, and any other operator raises `ValueError`; `EngineFacts.SeparatorReadsPrevious` states the effect on the machine |
| Engine.EarlierHeld | jiujitsu/bpInterpreterBase.py:482-483 | no earlier clause held exactly when every earlier condition has a stored truth other than the text `t` |
| Engine.CompileEach | jiujitsu/bpInterpreterBase.py:492-496 | a gate's body compiled node by node keeps the cells invariants |
| Engine.ExecIO | jiujitsu/bpInterpreterBase.py:127-134 | the socket and screen actions keep cells and pending actions valid |
| Engine.ExecIf | jiujitsu/bpInterpreterBase.py:451-510 | the `if` actions keep cells and pending actions valid |
| Engine.FindTruthStep | jiujitsu/bpInterpreterBase.py:451-478 | a stored truth changes nothing; a true or false answer stores that boolean and keeps the queue; the execute answer on an empty condition empties the queue and raises `IndexError`; in every case cells and pending actions stay valid |
| Engine.Gate | jiujitsu/bpInterpreterBase.py:480-502 | `execte_truth` keeps cells and pending actions valid |
| Engine.ExecScope | jiujitsu/bpInterpreterBase.py:519-528 | subshells, function scopes and the start of a substitution keep cells and pending actions valid |
| Engine.ExitCmdSubStep | jiujitsu/bpInterpreterBase.py:559-582 | replacing a substitution by its capture keeps each cell's part count |
| Engine.ExecCommand | jiujitsu/bpInterpreterBase.py:594-648 | a command node when it runs keeps cells and pending actions valid |
| Engine.CallFunction | jiujitsu/bpInterpreterBase.py:597-631 | a function call queues its scope, body and exit in front of what was pending, keeping them valid |
| Engine.UpdateAll | jiujitsu/bpInterpreterBase.py:665-666 | `update_variable_list` applied to each replaced node in order; `ExecAssignment` states what the assignment keeps |
| Engine.ExecAssignment | jiujitsu/bpInterpreterBase.py:664-667 | an assignment when it runs keeps cells and pending actions valid |
| Engine.Exec | jiujitsu/bpPrimitives.py:13-17 | calling any action keeps cells and pending actions valid |
| Engine.Step | jiujitsu/bpInterpreterBase.py:269-275 | `inch` removes the front action; on success the old remainder is still at the back, cells keep their shape, and valid actions stay valid |
| Engine.Build | jiujitsu/bpInterpreterBase.py:137-158 | the queue starts with the initialize action (after what was there when appending), ends with the clean-up action unless compiling raised, and stays valid |
| Engine.RunFuel | jiujitsu/bpInterpreterBase.py:279-282 | an empty queue is left as it is; running keeps cells and pending actions valid |
| EngineFacts.CmdSubsPaired | jiujitsu/bpInterpreterBase.py:584-587 | the actions for each substitution come as an enter and its exit, next to each other |
| EngineFacts.CmdSubsLastFirst | jiujitsu/bpInterpreterBase.py:545 | substitutions are queued from the word's last part back to its first |
| EngineFacts.CmdSubsCoverWord | jiujitsu/bpInterpreterBase.py:545-587 | every `$(...)` part of the word gets its exit action |
| EngineFacts.TransfersAppend | jiujitsu/bpInterpreterBase.py:294-295 | transfers of two queues add up |
| EngineFacts.CommandQueuesNoTransfer | jiujitsu/bpInterpreterBase.py:589-669 | a simple command queues no pipeline transfer |
| EngineFacts.PipelineTransfersFrom | jiujitsu/bpInterpreterBase.py:290-299 | from stage `i`, a pipeline of simple commands queues one transfer per remaining pipe |
| EngineFacts.PipelineOneTransferPerPipe | jiujitsu/bpInterpreterBase.py:290-299 | a pipeline of simple commands with n stages queues exactly n-1 transfers |
| EngineFacts.Iterations | jiujitsu/bpInterpreterBase.py:407-424 | the bookkeeping a loop should leave: two marks per value |
| EngineFacts.LoopMarksAppend | jiujitsu/bpInterpreterBase.py:407-424 | loop marks of two queues concatenate |
| EngineFacts.CommandQueuesNoLoopMarks | jiujitsu/bpInterpreterBase.py:589-669 | a simple command queues no loop bookkeeping |
| EngineFacts.RangeQueuesNoLoopMarks | jiujitsu/bpInterpreterBase.py:415-418 | neither does a body of simple commands |
| EngineFacts.IterationsInOrder | jiujitsu/bpInterpreterBase.py:407-424 | for each value in order, the iterator is set, the body runs and a flush follows |
| EngineFacts.ForLoopLayout | jiujitsu/bpInterpreterBase.py:389-430 | a `for` loop over simple commands reads its values from the updated variable table, opens and closes with its flushes, iterates in order, and removes the iterator variable at compile time |
| EngineFacts.IterationsAt | jiujitsu/bpInterpreterBase.py:409-424 | the k-th value sets the iterator at position 2k and its iteration ends at 2k+1 |
| EngineFacts.IfQueuesClauses | jiujitsu/bpInterpreterBase.py:437-517 | each clause queues its truth action and then its gate for the same condition |
| EngineFacts.EarlierHeldDefined | jiujitsu/bpInterpreterBase.py:482-483 | with every earlier condition stored, the check does not raise |
| EngineFacts.GateSkipsAfterHeldClause | jiujitsu/bpInterpreterBase.py:482-483 | once an earlier condition is stored as `t`, a later gate does nothing |
| EngineFacts.ExecutedConditionGates | jiujitsu/bpInterpreterBase.py:472-502 | a condition run in the shell passes exactly when it printed output; then the gate puts the body between its enter and exit flushes in front of what was pending, and otherwise leaves the machine alone |
| EngineFacts.AnsweredConditionNeverOpens | jiujitsu/bpInterpreterBase.py:453-460 | a yes or no from the user is stored as a boolean, never the text `t`, so that clause's body never runs |
| EngineFacts.BindAllBinds | jiujitsu/bpInterpreterBase.py:612-613 | binding distinct names gives each its one-element value and leaves every other variable as it was |
| EngineFacts.CallBindsPositionals | jiujitsu/bpInterpreterBase.py:601-613 | inside a call, "k" holds the k-th substituted argument and the caller's other variables are visible |
| EngineFacts.PositionalsDistinct | jiujitsu/bpInterpreterBase.py:604 | the positional names of a call are distinct |
| EngineFacts.FunctionScopeRestores | jiujitsu/bpInterpreterBase.py:610-625 | leaving a function scope gives back the caller's variables, functions, directory and socket; the screen is the caller's followed by the output pending at exit |
| EngineFacts.ScopeRoundTrip | jiujitsu/bpPrimitives.py:98-131 | lowering a scope, changing its variables, flushing and raising restores all but the screen, which gains the output |
| EngineFacts.SeparatorReadsPrevious | jiujitsu/bpInterpreterBase.py:371-387 | a separator consumes IN, keeps the queue, raises only on an unknown operator, and sets `execute` as `Separate` says |
| EngineFacts.DollarSearchNearest | jiujitsu/bpInterpreterBase.py:572-575 | the search returns the first probe, in probing order, that holds `$`; every earlier probe is inside the word and misses |
| EngineFacts.ProbeOrder | jiujitsu/bpInterpreterBase.py:572-575 | the probes visit the start, then alternate one left and one right at growing distance |
| Interpreting.ExecuteJson | jiujitsu/bpInterpreterBase.py:71-72 | `json()` writes the `execute` flag as `t` exactly when it is set, and `f` otherwise |
| Interpreting.ExecuteFlag | jiujitsu/bpInterpreterBase.py:48-49 | a boolean argument is kept; a string argument (from json) means true exactly when it is `t` |
| Interpreting.ExecuteJsonRoundTrip | jiujitsu/bpInterpreterBase.py:48-72 | writing the flag to json and loading it back gives the same flag |
| Interpreting.TruthValue | jiujitsu/bpInterpreterBase.py:204-211 | a boolean is kept; a string is true exactly when its lower-case form is `t` or `true` |
| Interpreting.LowerIdempotent | jiujitsu/bpInterpreterBase.py:208 | lower-casing twice is lower-casing once |
| Interpreting.TruthValueIgnoresCase | jiujitsu/bpInterpreterBase.py:204-211 | the coercion ignores case, accepts `TRUE`, `True` and `T`, and rejects `f`, `yes` and the empty string |
| Interpreting.StateEqualsIsEquivalence | jiujitsu/bpPrimitives.py:71-80 | equality of states is reflexive, symmetric and transitive |
| Interpreting.SameMachineIsEquivalence | jiujitsu/bpInterpreterBase.py:52-58 | equality of interpreters is an equivalence and does not look at the node cells |
| Interpreting.RunNode | jiujitsu/bpInterpreterBase.py:279-282 | without a node, an empty queue is left as it is and otherwise the queue runs; runs keep cells and pending actions valid |
| Interpreting.Interpreter.constructor | jiujitsu/bpInterpreterBase.py:15-49 | a fresh state holding the arguments, an empty queue and the coerced `execute` flag |
| Interpreting.Interpreter.Copy | jiujitsu/bpInterpreterBase.py:15-49 | a new interpreter with a new state and the same value |
| Interpreting.Interpreter.Load | jiujitsu/bpInterpreterBase.py:15-49 | the fields hold the given machine value |
| Interpreting.Interpreter.Build | jiujitsu/bpInterpreterBase.py:137-158 | the new machine and the error are those of `Engine.Build` on the old machine |
| Interpreting.Interpreter.Inch | jiujitsu/bpInterpreterBase.py:269-275 | progress happens exactly when the queue was not empty; then the machine is one `Step` further, and otherwise unchanged with no error |
| Interpreting.Interpreter.Run | jiujitsu/bpInterpreterBase.py:279-282 | the new machine and error are those of `RunNode` |
| Interpreting.Interpreter.SetVariable | jiujitsu/bpInterpreterBase.py:186-191 | the state is the old one with the variable set |
| Interpreting.Interpreter.SetTruth | jiujitsu/bpInterpreterBase.py:204-211 | the state stores the coerced truth, which `test_truth` then gives back |
| Interpreting.Interpreter.ShiftVariables | jiujitsu/bpInterpreterBase.py:201-202 | the state and error are those of the state's shift |
| Interpreting.Interpreter.UpdateFileSystem | jiujitsu/bpInterpreterBase.py:112-117 | the state and error are those of the state's file-system update |
| Interpreting.Interpreter.Stdin | jiujitsu/bpInterpreterBase.py:255-258 | IN is set when given, and the current IN is returned |
| Interpreting.Interpreter.Stdout | jiujitsu/bpInterpreterBase.py:261-264 | OUT is set when given, and the current OUT is returned |
| Interpreting.Interpreter.WorkingDir | jiujitsu/bpInterpreterBase.py:91-93 | the directory is set when given, and the current one is returned |
| Interpreting.Interpreter.EnterSubshell | jiujitsu/bpInterpreterBase.py:108-109 | the state enters a subshell scope |
| Interpreting.Interpreter.ClearScreen | jiujitsu/bpInterpreterBase.py:83-87 | the screen is emptied |
| Interpreting.Interpreter.Equals | jiujitsu/bpInterpreterBase.py:52-58 | equal interpreters have queues of the same length and the same `execute` flag; it is `SameMachine` of the values, which `SameMachineIsEquivalence` shows an equivalence |
| Interpreting.Interpreter.GetScreen | jiujitsu/bpInterpreterBase.py:83-84 | the screen log of the state |
| Interpreting.Interpreter.TestTruth | jiujitsu/bpInterpreterBase.py:214-218 | a truth is returned exactly when the name is stored, and it is the stored one |
| JudoRecord.ActionText | jiujitsu/jRecord.py:8 | `str(None)` is the text `None`; any other action is kept |
| JudoRecord.NewRecord | jiujitsu/jRecord.py:4-8 | the record keeps the interpreter and name, and the action as text, `None` when it is missing |
| JudoRecord.MissingActionIsNoneText | jiujitsu/jRecord.py:8 | a record made without an action equals one made with the action text `None`, which is not empty |
| JudoRecord.EqualsIsEquivalence | jiujitsu/jRecord.py:10-14 | record equality is reflexive, symmetric and transitive |
| JudoRecord.EqualsIff | jiujitsu/jRecord.py:10-14 | records are equal exactly when interpreters, names and actions are |
| JudoRecord.Text | jiujitsu/jRecord.py:23-28 | the text's length is that of the name line, the action line, the interpreter's text and a newline |
| JudoRecord.TextLayout | jiujitsu/jRecord.py:23-28 | the text's name line, action line, interpreter text and final newline sit at those positions |
| JudoRecord.Json | jiujitsu/jRecord.py:30-33 | exactly the keys `name`, `action` and `env`, holding the record's fields |
| JudoRecord.FromJson | jiujitsu/jRecord.py:4-8 | an unknown key, or a missing `name` or `env`, is a `TypeError`; otherwise, with text for the name and action and an interpreter for env, the result is the record built from them, with the action `None` when `action` is missing |
| JudoRecord.JsonRoundTrip | jiujitsu/jRecord.py:4-33 | at the level of the record's own keys, a record written to json and loaded back has the same name, action and interpreter value; the interpreter value is carried whole, which is more than the source's reload keeps |
| JudoRecord.MissingActionLoadsAsNone | jiujitsu/jRecord.py:4-8 | a dict with only `name` and `env` loads with the action text `None` |
| JudoRecord.ExtraKeyRefused | jiujitsu/jRecord.py:4 | a record's json with any further key is refused with a `TypeError` |
| Builtins.WordOf | jiujitsu/bpInterpreter.py:38 | a node's word, or `AttributeError` exactly when it has none |
| Builtins.ArgsOf | jiujitsu/bpInterpreter.py:25 | the arguments are every part after the command word; a node with no parts is an error |
| Builtins.EchoWords | jiujitsu/bpInterpreter.py:27-29 | the words of the leading arguments of kind `word`, in order, stopping at the first other kind |
| PyStr.SpacedIsJoinPlusSpace | jiujitsu/bpInterpreter.py:29-30 | each word followed by a space is the space-join plus one trailing space; `echo` and `args_to_str` both build that text and drop its last character |
| PyStr.SpacedAppend | jiujitsu/bpInterpreter.py:29 | one more word adds the word and a space at the end |
| Builtins.EchoText | jiujitsu/bpInterpreter.py:26-30 | echo's text is the leading words joined by single spaces, with no trailing space |
| Builtins.EchoStep | jiujitsu/bpInterpreter.py:27-29 | one step of the echo loop: a word node puts its word in front, a node without a word raises |
| Builtins.PrefixedTwice | jiujitsu/bpInterpreter.py:29 | putting words in front twice is putting their concatenation in front |
| Builtins.EchoLoop | jiujitsu/bpInterpreter.py:26-30 | the source's loop computes `EchoText` |
| Builtins.Echo | jiujitsu/bpInterpreter.py:24-31 | on success OUT receives echo's text and nothing else changes; on an error nothing changes |
| Builtins.Cd | jiujitsu/bpInterpreter.py:33-38 | a single argument becomes the working directory; any other count changes nothing |
| Builtins.Wget | jiujitsu/bpInterpreter.py:40-53 | a valid URL stores the page as `index.html` with the default permissions; an invalid one changes nothing |
| Builtins.AddExecute | jiujitsu/bpInterpreter.py:64-68 | characters 2, 5 and 8 become `x` and every other character is kept |
| Builtins.Chmod | jiujitsu/bpInterpreter.py:55-69 | `+x` gives the target under the working directory execute permission, creating it without contents and with the default permissions when missing; other files and fields are untouched; any other mode changes nothing |
| Builtins.SplitFlags | jiujitsu/bpInterpreter.py:75-79 | the split succeeds exactly when every argument has a non-empty word; the flag and document counts add up to the argument count, every flag starts with `-` and no document does |
| Builtins.SplitFlagsIsSelect | jiujitsu/bpInterpreter.py:75-79 | a successful split is the pair of order-preserving filters: the flags in command-line order, then the documents in command-line order |
| Builtins.SelectSnoc | jiujitsu/bpInterpreter.py:75-79 | one more argument at the end adds itself at the end of the list of its own kind only |
| Builtins.SelectNone | jiujitsu/bpInterpreter.py:75-79 | a filter keeps nothing from a list with no argument of its kind |
| Builtins.SelectAll | jiujitsu/bpInterpreter.py:75-79 | the flag filter keeps the whole of a list made only of flags |
| Builtins.SelectFirstDocument | jiujitsu/bpInterpreter.py:75-79 | the first document is the first argument that is not a flag |
| Builtins.SplitFlagsFirstDocument | jiujitsu/bpInterpreter.py:75-80 | after any number of leading flags, the first word not starting with `-` is `documents[0]`, the entry `rm` acts on |
| Builtins.SplitFlagsAllFlags | jiujitsu/bpInterpreter.py:75-80 | a command line made only of flags yields all of them as flags, in order, and no document |
| Builtins.SplitFlagsErrorStays | jiujitsu/bpInterpreter.py:75-79 | an argument that makes the split raise makes every longer list raise the same way |
| Builtins.PartitionArgs | jiujitsu/bpInterpreter.py:73-79 | the source's loop computes `SplitFlags` |
| Builtins.RmAsWrittenMissesPrefixedName | jiujitsu/bpInterpreter.py:80-81 | as written, `rm a` in `~` with only `~/a` stored passes the guard and then raises `KeyError`, leaving the file |
| Builtins.RmAsWritten | jiujitsu/bpInterpreter.py:71-82 | `f_rm` as written: where it succeeds it does what the corrected rm does; where the two differ it raises `KeyError` and leaves the state, and any error leaves the state |
| Builtins.Rm | jiujitsu/bpInterpreter.py:71-82 | the corrected rm (the source also raises `KeyError` when only `<wd>/doc` is stored): it raises exactly when the arguments do not split or there is no document, and then changes nothing |
| Builtins.RmRemovesFirstDocument | jiujitsu/bpInterpreter.py:80-82 | `/` empties the file system; otherwise only the entry the first document names, as it is or else under the working directory, is removed |
| Builtins.Cp | jiujitsu/bpInterpreter.py:89-91 | the second name gets the first one's file; with no argument, or one word and no second argument, `IndexError`; a first argument without a word is an `AttributeError` before the second is looked at; an error changes nothing |
| Builtins.Mv | jiujitsu/bpInterpreter.py:84-87 | a copy followed by removing the first name |
| Builtins.MvMovesFile | jiujitsu/bpInterpreter.py:84-87 | for distinct names, `mv a b` leaves `b` with `a`'s file (or a new empty one), no `a`, and every other entry as it was |
| Builtins.UnsetFunctionsIn | jiujitsu/bpInterpreter.py:97-99 | `unset -f` removes every named function, keeps all other functions and changes nothing else |
| Builtins.UnsetNames | jiujitsu/bpInterpreter.py:102-105 | plain `unset` removes each named variable, or the function when no such variable existed, and keeps every other variable and function |
| Builtins.Shift | jiujitsu/bpInterpreter.py:107-108 | `shift` succeeds exactly when the state's shift does, with its state; on an error nothing changes |
| Builtins.Unset | jiujitsu/bpInterpreter.py:93-105 | no argument is an `IndexError` and a first argument without a word an `AttributeError`; `-f` unsets the functions named after it (`UnsetFunctionsIn`), `-n` changes nothing, and anything else unsets every argument as a variable or else a function (`UnsetNames`) |
| Builtins.Call | jiujitsu/bpInterpreterBase.py:634-638 | the built-in table: each `f_` name runs its own function on the substituted node, `bash` is not modelled and the empty name does nothing |
| JudoTokens.TypeName | jToken.py:6-12 | each token type's value is its own name, a non-empty run of capitals |
| JudoTokens.TypeNameInjective | jToken.py:6-12 | distinct token types have distinct values |
| JudoTokens.Equals | jToken.py:26-29 | nothing but a token equals a token, and tokens are equal exactly when they are the same token, type and value |
| JudoTokens.Shown | jToken.py:22 | the shown value is the text itself, except that a missing or empty value shows as `None` |
| JudoTokens.RenderDetermines | jToken.py:21-22 | two printed forms agree exactly when the types and the shown values do |
| JudoTokens.Render | jToken.py:21-22 | the printed form is `Token(`, the type name, `, value: `, the shown value and `)`: sixteen characters more than the name and the value |
| JudoTokens.Layout | jToken.py:22 | the printed form has the type's name from position 6, a comma right after it, and the shown value before the closing parenthesis |
| JudoTokens.RenderHidesEmpty | jToken.py:22 | a missing value, an empty one and the text `None` print the same |
| JudoNodes.MakeCommand | jNode.py:37-44 | a command is built exactly when every flag is a flag and every argument an argument; otherwise the undefined `ParserError` surfaces as `NameError` |
| JudoNodes.Equal | jNode.py:14-29 | `Flag.__eq__` and `Arg.__eq__`: equal exactly when both are flags or both arguments and the values agree, whatever the quoting |
| JudoNodes.Key | jNode.py:14-29 | what leaf equality looks at: the class and the value; `LeafEquality` and `InIsKeyAmong` state that equality and `in` are those of the key |
| JudoNodes.Keys | jNode.py:14-29 | the key of each leaf, in order |
| JudoNodes.LeafEquality | jNode.py:14-29 | flag and argument equality is an equivalence that compares class and value, never equates a flag with an argument, ignores `quoted`, and makes `in` a search for the key |
| JudoNodes.CommandEqualityNotSymmetric | jNode.py:52-61 | as written, command equality is not symmetric: `[x, x]` equals `[x, y]` but not the other way round |
| JudoNodes.CommandEqual | jNode.py:52-61 | `Command.__eq__` holds exactly when the names, the flag counts and the argument counts agree and every flag and argument of the left command has its key among the right one's; every command equals itself |
| JudoNodes.InIsKeyAmong | jNode.py:56-60 | the `in` checks of `Command.__eq__` are membership of the class-and-value key |
| JudoNodes.SelfAmong | jNode.py:56-60 | every flag or argument of a list is found `in` that list |
| JudoNodes.EquivalentIsEquivalence | jNode.py:52-61 | the order-insensitive equality (same name, same multisets of flag and argument keys) is an equivalence |
| JudoNodes.Equivalent | jNode.py:52-61 | the intended equality: equivalent commands have the same name and as many flags and arguments, and every command is equivalent to itself |
| JudoNodes.EquivalentIgnoresOrder | jNode.py:52-61 | reordering a command's flags and arguments keeps it equivalent |
| JudoNodes.AsWrittenAgreesWithoutRepeats | jNode.py:52-61 | when the left command repeats no flag and no argument, the written equality is exactly the order-insensitive one |
| JudoNodes.MultisetCovers | jNode.py:55-60 | equal multisets of keys mean equal lengths and every element found in the other list |
| JudoNodes.CoveredIsPermutation | jNode.py:55-60 | distinct keys, equal lengths and every element found make the key multisets equal |
| JudoNodes.ProgramEqualityNotSymmetric | jNode.py:77-81 | as written, program equality compares commands with the one-directional command equality, so `[f x x]` equals `[f x y]` but not the other way round |
| JudoNodes.ProgramEquals | jNode.py:77-81 | `Program.__eq__`: equal programs have as many commands, and every program equals itself |
| JudoNodes.ProgramEquivalentIsEquivalence | jNode.py:77-81 | program equality built on the order-insensitive command equality, position by position, is reflexive, symmetric and transitive |
| JudoNodes.ProgramEquivalent | jNode.py:77-81 | the intended program equality: equivalent programs have as many commands, and every program is equivalent to itself |
| JudoNodes.ProgramAsWrittenAgreesWithoutRepeats | jNode.py:77-81 | when no command on the left repeats a flag or an argument, the written program equality is exactly the intended one |
| JudoNodes.Unescape | jNode.py:30-33 | a quoted argument comes back between double quotes, and an empty unquoted one is empty; `UnescapeIsReplaceChain` and `ChainIsEscapeAll` state the escaping |
| JudoNodes.EscapeOf | jNode.py:31 | a backslash, double quote, tab or newline becomes a backslash and one character; every other character is kept |
| JudoNodes.UnescapeIsReplaceChain | jNode.py:30-33 | `unescape` is the four replacements in the source's order, wrapped in double quotes when the argument was quoted |
| JudoNodes.ChainIsEscapeAll | jNode.py:31 | the four replacements in a row escape each character on its own, none of them touching what an earlier one wrote |
| JudoNodes.ChainAppend | jNode.py:31 | the replacements distribute over concatenation |
| JudoLex.CharAt | jLexer.py:57-74 | nothing past the end; a plain character as it is; a backslash decodes the next character when it is one of `n t \ " '`, and otherwise raises `LexerError`, or `IndexError` at the end of the text |
| JudoLex.NextPos | jLexer.py:78-80 | `advance` moves one character on, or two past a backslash, and stays inside the text after a readable character |
| JudoLex.SkipSpace | jLexer.py:84-86 | the first position at or after the start whose character is not a space; it moves when the start is a space |
| JudoLex.CommentSkip | jLexer.py:91-96 | the position after the comment, at or past the start; when no newline ends it, the text is used up |
| JudoLex.FlagTokens | jLexer.py:143-145 | the `flags` loop yields only one-character FLAG tokens and moves forward |
| JudoLex.Word | jLexer.py:158-174 | the word loop stops just where a space, `;` (or `:` for arguments) or the end comes, and the word holds none of them; it is non-empty when the start does not end it |
| JudoLex.QuoteText | jLexer.py:184-187 | the quote loop ends on the raw closing quote of the same kind, inside the text |
| JudoLex.QuoteFollow | jLexer.py:191-192 | a closing quote may be followed only by the end, a space or a colon |
| JudoLex.QuoteTokenAsWritten | jLexer.py:179-194 | as written, `QUOTE` always raises |
| JudoLex.QuoteToken | jLexer.py:179-194 | as intended, a quoted argument is one ARG token holding the decoded text between the quotes, ending after the closing quote, which the follow check accepts |
| JudoLex.QuotedArgumentAlwaysRaises | jLexer.py:194 | where the intended `QUOTE` returns an argument, the written one raises `TypeError`, because the token class takes no `quoted` argument; on every other input both raise the same error |
| JudoLex.QuoteTextVerbatim | jLexer.py:184-188 | between plain quotes the text is taken verbatim |
| JudoLex.QuoteVerbatim | jLexer.py:179-194 | a plain quoted text followed by the end, a space or a colon is one argument holding the text |
| JudoLex.Pop | jLexer.py:147 | popping an empty queue is an `IndexError`; otherwise the first queued token comes out and the rest stay |
| JudoLex.Resolve | jLexer.py:128-134 | an unknown alias is a `LexerError`; otherwise the alias's tokens go in front of the queue and the first one comes out, `IndexError` when there is none |
| JudoLex.FlagsStep | jLexer.py:140-147 | `flags` moves forward and keeps the text, the aliases and the command-word switch |
| JudoLex.CmdStep | jLexer.py:158-164 | `CMD` turns the command-word switch off and moves forward on a word |
| JudoLex.ArgStep | jLexer.py:169-174 | `ARG` yields an ARG token whose text holds no word end, and changes only the position |
| JudoLex.QuoteStep | jLexer.py:179-194 | the intended `QUOTE` yields an ARG token and changes only the position, which moves forward |
| JudoLex.EocStep | jLexer.py:151-154 | `EOC` yields the `;` token and turns the command-word switch on |
| JudoLex.Scan | jLexer.py:206-240 | the text loop keeps the text and the aliases, moves forward, and yields EOF at the end of the text |
| JudoLex.TokenAt | jLexer.py:217-236 | every branch of the loop that returns a token moves forward |
| JudoLex.NextToken | jLexer.py:198-240 | `get_next_token` pops a queued token first; it makes progress whenever there is something to read, and yields EOF once the queue and the text are used up |
| JudoLex.AllTokens | jLexer.py:242-246 | `get_all_tokens` ends with the first EOF token and holds no earlier one |
| JudoLex.AddAlias | jLexer.py:108-122 | `add_alias` binds the name and keeps every other alias |
| JudoLex.AliasTokens | jLexer.py:115-120 | the loop of `add_alias` yields no token once the read position is past the text, and at least one while it is inside |
| JudoLex.Values | jLexer.py:45 | the tokens' values in order, defined exactly when every token has one |
| JudoLex.AliasJson | jLexer.py:42-46 | `json` maps each alias to its tokens' values joined by spaces, and fails exactly when an alias holds a token without value |
| JudoLex.CommentEndsAtNewline | jLexer.py:91-96 | a comment ends just past the first newline, and the next word is a command |
| JudoLex.FlagsOf | jLexer.py:143-144 | one FLAG token per character, in order |
| JudoLex.FlagsVerbatim | jLexer.py:143-145 | a plain flag section up to a space, `;` or the end gives one FLAG token per character |
| JudoLex.FlagSectionQueues | jLexer.py:140-147 | on `-fg...` the first flag comes out at once and the others are queued, in order |
| JudoLex.FlagsStepQueues | jLexer.py:140-147 | the same for `flags` itself |
| JudoLex.LoneDashRaises | jLexer.py:141-147 | a dash with no flag after it pops an empty queue and raises `IndexError` |
| JudoLex.ColonStandsAlone | jLexer.py:225-227 | a colon is an argument of its own |
| JudoLex.SemicolonEndsCommand | jLexer.py:220-221 | a `;` yields EOC and makes the next word a command |
| JudoLex.ScanCarries | jLexer.py:206-240 | every token the text loop yields has a value unless it is EOF |
| JudoLex.NextTokenCarries | jLexer.py:198-240 | the same for `get_next_token` |
| JudoLex.AllTokensCarry | jLexer.py:242-246 | every token of `get_all_tokens` has a value except the final EOF |
| JudoLex.WordVerbatim | jLexer.py:160-162 | a plain word up to a word end is read verbatim |
| JudoLex.SpaceVerbatim | jLexer.py:84-86 | plain spaces are skipped up to the first other character |
| JudoLex.ScanSkipsSpace | jLexer.py:208-210 | spaces before a token change nothing about it |
| JudoLex.ScanCommand | jLexer.py:229-232 | a plain first word that names no alias is the CMD token |
| JudoLex.ScanArgument | jLexer.py:235-236 | a plain later word is an ARG token |
| JudoLex.RunFlagsExample | jLexer.py:242-246 | `run -fg echo` lexes to the command, two flags, the argument and EOF |
| JudoLex.AliasDropsQueuedFlags | jLexer.py:115-122 | on `r -fg` the alias loop stops once the text is read, so the queued flag `g` is lost |
| JudoLex.AddAliasExample | jLexer.py:108-122 | `add_alias('t', 'run this')` binds `t` to the command and its argument |
| JudoLex.Lexer.constructor | jLexer.py:21-38 | a new lexer starts at position 0 on a command word, with an empty queue and the given table |
| JudoLex.Lexer.New | jLexer.py:51-53 | `new` starts again on the new text and keeps the table |
| JudoLex.Lexer.Advance | jLexer.py:78-80 | only the position changes, to `NextPos` |
| JudoLex.Lexer.SkipWhitespace | jLexer.py:84-86 | the position becomes the one `SkipSpace` gives, or the error is raised |
| JudoLex.Lexer.SkipComment | jLexer.py:91-96 | the position and the command-word switch become those `CommentSkip` gives |
| JudoLex.Lexer.ResolveAlias | jLexer.py:128-134 | the token and queue are those `Resolve` gives |
| JudoLex.Lexer.Flags | jLexer.py:140-147 | the token and state are those `FlagsStep` gives |
| JudoLex.Lexer.QueueFlags | jLexer.py:143-145 | the loop queues the tokens `FlagTokens` gives and stops where it stops |
| JudoLex.Lexer.Eoc | jLexer.py:151-154 | the token and state are those `EocStep` gives |
| JudoLex.Lexer.ReadWord | jLexer.py:158-174 | the loop reads the word `Word` gives |
| JudoLex.Lexer.Cmd | jLexer.py:158-164 | the CMD token of that word, with the command-word switch off |
| JudoLex.Lexer.Arg | jLexer.py:169-174 | the token and state are those `ArgStep` gives |
| JudoLex.Lexer.Quote | jLexer.py:179-194 | the token and state are those `QuoteStep` gives |
| JudoLex.Lexer.ReadToken | jLexer.py:217-236 | the token and state are those `TokenAt` gives |
| JudoLex.Lexer.GetNextToken | jLexer.py:198-240 | the token and state are those `NextToken` gives |
| JudoLex.Lexer.GetAllTokens | jLexer.py:242-246 | the result is `AllTokens` of the starting state |
| JudoLex.Lexer.AddAlias | jLexer.py:108-122 | the table binds the name to the tokens the alias loop takes, and nothing else changes |
| JudoShell.History | jiujitsu/jInterpreter.py:28 | the history is the saved records followed by the live one |
| JudoShell.OptionsOf | jiujitsu/jInterpreter.py:136-163 | each option is set exactly when its flag (`-i`, `-h`, `-e`, `-p`) is among the flags |
| JudoShell.FreshMachine | jiujitsu/jInterpreter.py:26-27 | a fresh interpreter holds the default state, an empty queue and no cells |
| JudoShell.InitRecord | jiujitsu/jInterpreter.py:28 | the first record holds a fresh interpreter, the name `init` and the action `None` |
| JudoShell.InitialShell | jiujitsu/jInterpreter.py:19-33 | a new shell has only the first record, index 0, index history `[0]`, no program and no aliases |
| JudoShell.WithLive | jiujitsu/jInterpreter.py:85 | replacing the live interpreter keeps the live record's name and action and everything else |
| JudoShell.WithLiveState | jiujitsu/jInterpreter.py:85 | replacing the live interpreter's state changes nothing else |
| JudoShell.Texts | jiujitsu/jInterpreter.py:53-57 | one text per argument, its value or its unescaped form |
| JudoShell.ArgsText | jiujitsu/jInterpreter.py:50-60 | the texts joined by single spaces; asking a flag for its unescaped form is an `AttributeError`, and nothing else fails |
| JudoShell.PlainText | jiujitsu/jInterpreter.py:50-60 | without unescaping the text always exists |
| JudoShell.ArgsTextSplits | jiujitsu/jInterpreter.py:50-60 | when no value holds a space, splitting the text on spaces gives back the values |
| JudoShell.JoinSnoc | jiujitsu/jInterpreter.py:57 | one more text adds a space and the text at the end of the join |
| JudoShell.SpacedSnoc | jiujitsu/jInterpreter.py:53-57 | one more loop pass adds the text and a space |
| JudoShell.ArgsToStr | jiujitsu/jInterpreter.py:50-60 | the source's loop computes `ArgsText` |
| JudoShell.Count | jiujitsu/jInterpreter.py:129-132 | the count is the number a run of ASCII digits spells, and 1 for any other text |
| JudoShell.CountReadsNumbers | jiujitsu/jInterpreter.py:193-196 | a count written by `str(n)` reads back as `n`; the empty and non-numeric texts count one |
| JudoShell.NextNode | jiujitsu/jInterpreter.py:62-66 | nothing at or past the end, otherwise the node at the index with Python's negative indexing, and `IndexError` below it |
| JudoShell.Saved | jiujitsu/jInterpreter.py:79-86 | a save point appends a record of the live interpreter, named by the history's length unless a name is given; the live interpreter is unchanged and the index is pushed on the index history |
| JudoShell.DefaultNamesDistinct | jiujitsu/jInterpreter.py:82 | two save points in a row without names get distinct names, the positions they take |
| JudoShell.Undone | jiujitsu/jInterpreter.py:175-186 | with a saved point the last record is dropped, the one before becomes live and the index steps back; otherwise the history starts again from the first record at index 0 |
| JudoShell.UndoCommand | jiujitsu/jInterpreter.py:170-188 | a text that does not parse raises its error and changes nothing; otherwise the shell becomes `Undone` of itself, whose properties the `Undone`, `UndoDiscardsLive` and `NextThenUndo` rows state |
| JudoShell.UndoAfterSave | jiujitsu/jInterpreter.py:79-86 | undo right after a save point gives back the shell, except that the index is one lower |
| JudoShell.UndoDiscardsLive | jiujitsu/jInterpreter.py:170-181 | whatever the interpreter did after a save point, undo discards it |
| JudoShell.UndoAtStart | jiujitsu/jInterpreter.py:182-186 | undo on the first record is the initial shell with the program and aliases kept, and undoing the initial shell changes nothing |
| JudoShell.Skipped | jiujitsu/jInterpreter.py:190-199 | `skip` moves the index on by the count its text spells and changes nothing else; `SkipsAdd` states how skips compose |
| JudoShell.SkipsAdd | jiujitsu/jInterpreter.py:193-199 | skips add up, and a non-numeric text skips one node |
| JudoShell.SavePoint | jiujitsu/jInterpreter.py:201-207 | `save` without a name changes nothing; with one it saves a point with that name and the action `User Save` |
| JudoShell.SavePointNamed | jiujitsu/jInterpreter.py:201-207 | a named save point ends the history with that name and `User Save`, and undo removes it |
| JudoShell.SetVarsAssigns | jiujitsu/jInterpreter.py:355-363 | `var` changes only the variables, storing each leading `name : value` group in order |
| JudoShell.SetVars | jiujitsu/jInterpreter.py:359-363 | storing the `name : value` groups changes only the variables; `JudoShell.SetVarsAssigns` says how |
| JudoShell.VarCommand | jiujitsu/jInterpreter.py:355-367 | a text that does not parse raises its error and changes nothing; otherwise the live state becomes `SetVars` of its arguments, whose effect `SetVarsAssigns` states |
| JudoShell.AssignedLastWins | jiujitsu/jInterpreter.py:361-363 | after the groups, a name is set exactly when it was set before or named by a group; the last group naming it decides its value, and untouched names keep theirs |
| JudoShell.VarExample | jiujitsu/jInterpreter.py:355-363 | `var name1:value1 name2 : value2` stores both values |
| JudoShell.FsGroupsOnlyFiles | jiujitsu/jInterpreter.py:369-402 | `fs` changes only the file system and never removes a file |
| JudoShell.FsGroups | jiujitsu/jInterpreter.py:378-402 | the only exception the `fs` loop raises is `IndexError`; `JudoShell.FsGroupsOnlyFiles` and `JudoShell.FsMalformed` state the rest |
| JudoShell.FsCommand | jiujitsu/jInterpreter.py:369-406 | a text that does not parse raises its error and changes nothing; otherwise the live state and error are those of `FsGroups` on its arguments |
| JudoShell.FsDefaultPermissions | jiujitsu/jInterpreter.py:394-402 | a group without permissions stores its contents with `rw-rw-rw-` at the resolved path |
| JudoShell.FsMalformed | jiujitsu/jInterpreter.py:378-392 | a lone name raises `IndexError`, while a name followed by something other than `:`, or by `:` alone, ends quietly |
| JudoShell.TruthAllOrNothing | jiujitsu/jInterpreter.py:510-523 | `truth` either sets every `statement : value` triple or, on any malformed one, leaves the truths as they were |
| JudoShell.TruthLoopShape | jiujitsu/jInterpreter.py:511-523 | the loop ends with every triple set, or with the saved truths restored |
| JudoShell.TruthLoop | jiujitsu/jInterpreter.py:510-523 | the `truth` loop changes only the truths; `JudoShell.TruthLoopShape` says how |
| JudoShell.TruthCommand | jiujitsu/jInterpreter.py:498-524 | a text that does not parse raises its error and changes nothing; otherwise the live state becomes `TruthLoop` over its arguments, starting from its own truths |
| JudoShell.TruthExample | jiujitsu/jInterpreter.py:498-523 | `truth this:true that:false` sets both as booleans; a trailing lone name undoes the whole command |
| JudoShell.HistoryWith | jiujitsu/jInterpreter.py:435-446 | `-r` leaves only the first record; without it the records are kept; only the records and the saving switch change |
| JudoShell.HistorySwitches | jiujitsu/jInterpreter.py:441-446 | `on` turns saving on, `off` turns it off, `toggle` flips it and two toggles cancel, and `off` wins over `on` |
| JudoShell.HistoryOnText | jiujitsu/jInterpreter.py:419-446 | the text `history on` turns saving on and changes nothing else |
| JudoShell.HistoryCommand | jiujitsu/jInterpreter.py:419-447 | a text that does not parse raises its error and changes nothing; otherwise the shell becomes `HistoryWith` of the flags and arguments, and nothing is raised |
| JudoShell.AliasWith | jiujitsu/jInterpreter.py:566-586 | `-p` and `-a` change nothing and `-p` raises `KeyError` exactly when a name is missing; otherwise the first argument is bound to the text of the rest, and no argument is an `IndexError` |
| JudoShell.AliasCommand | jiujitsu/jInterpreter.py:566-587 | a text that does not parse raises its error and changes nothing; otherwise the result is `AliasWith` of the flags and arguments |
| JudoShell.AliasExample | jiujitsu/jInterpreter.py:584-586 | `alias t run echo this` binds `run echo this` to `t`, which `alias -p t` then finds |
| JudoShell.DirWith | jiujitsu/jInterpreter.py:331-338 | `dir` with exactly one argument sets the working directory to it, and otherwise changes nothing |
| JudoShell.DirCommand | jiujitsu/jInterpreter.py:331-339 | a text that does not parse raises its error and changes nothing; otherwise the shell becomes `DirWith` of the arguments |
| JudoShell.InchTimes | jiujitsu/jInterpreter.py:227-237 | no passes, or an empty queue, leave the interpreter as it is |
| JudoShell.InchAgrees | jiujitsu/jInterpreter.py:227-237 | walking `do_inch`'s loop and `run`'s loop pass by pass, they stop at the same machine with the same error |
| JudoShell.InchIsRunFuel | jiujitsu/jInterpreter.py:227-237 | `n` passes of `inch` are `run` limited to `n` actions (`Engine.RunFuel`): same machine, same error |
| JudoShell.InchCommand | jiujitsu/jInterpreter.py:210-242 | `inch` on an empty queue changes nothing and raises nothing; a parse error is raised with the shell unchanged; with `-e` the live interpreter and error are those of `ShellTimes` for the count the arguments spell; otherwise the live interpreter becomes that of `run` limited to that count, with its error |
| Actions.Code | jiujitsu/bpInterpreterBase.py:584-668 | an entry has code only when it is a command-substitution entry (whose code is its rendered text), the command entry or the assignment entry; every other entry's code is `None` |
| JudoShell.Skim | jiujitsu/jInterpreter.py:233-234 | a pass of `inch -e` on an entry without code drops the front entry and sets IN to the empty text; nothing else changes |
| JudoShell.ShellTimes | jiujitsu/jInterpreter.py:227-234 | no passes leave the interpreter as it is; `JudoShell.ShellTimesSkims` states the rest |
| JudoShell.Codeless | jiujitsu/jInterpreter.py:229-231 | the count of leading entries without code: all of them have none, and the entry after them has code |
| JudoShell.ShellTimesSkims | jiujitsu/jInterpreter.py:227-234 | `n` passes of `inch -e`: with no code among the first `n` entries they are all dropped and IN emptied; otherwise the passes drop the code-less entries in front and stop at the first entry with code for the host shell, or, with no such entry, empty the queue and raise `IndexError` at `action_stack[0]` |
| JudoShell.InchLoop | jiujitsu/jInterpreter.py:227-237 | no passes change nothing; with `-e` the loop is `ShellTimes`, and otherwise `InchTimes`, which `InchIsRunFuel` equates with `run` limited to the count |
| JudoShell.Shell.ShellPass | jiujitsu/jInterpreter.py:228-234 | one pass of the `-e` loop: an empty queue raises `IndexError`, an entry with code stops for the host shell, and otherwise one pass fewer of `ShellTimes` remains |
| JudoShell.Shell.ShellRun | jiujitsu/jInterpreter.py:227-234 | the `-e` loop leaves the interpreter and error `ShellTimes` gives |
| JudoShell.Shell.InchLoopRun | jiujitsu/jInterpreter.py:227-237 | the loop, with or without `-e`, leaves the interpreter and error `InchLoop` gives |
| JudoShell.Advanced | jiujitsu/jInterpreter.py:136-137 | unless `-i` is given the index moves on by one, and nothing else changes |
| JudoShell.Settle | jiujitsu/jInterpreter.py:163-164 | the loop goes on exactly when the pass raised nothing and `-p` is absent; `-p` ends it with an error because `do_state` is given a list |
| JudoShell.NextPassRuns | jiujitsu/jInterpreter.py:134-164 | a pass that finds a node or pending actions advances, runs its middle, and settles |
| JudoShell.NextLoopUnfolds | jiujitsu/jInterpreter.py:133-167 | the loop stops at a finishing pass and otherwise goes on from the pass's shell |
| JudoShell.NextAtEnd | jiujitsu/jInterpreter.py:135 | past the end of the program with an empty queue, `next` changes nothing |
| JudoShell.NextThenUndo | jiujitsu/jInterpreter.py:120-187 | with history on, `next` on a node followed by `undo` gives back the shell exactly, whatever running the node did |
| JudoShell.NextCommand | jiujitsu/jInterpreter.py:120-168 | a text that does not parse raises its error and changes nothing; otherwise `next` runs `NextLoop` with the options its flags set, for the count its arguments spell |
| JudoShell.Drain | jiujitsu/jInterpreter.py:160-161 | an empty queue, or a count of zero (with which `do_inch` makes no pass, so the source loops for ever), leaves the interpreter as it is; `Shell.DrainRun` is the loop |
| JudoShell.DrainSkimsCodeless | jiujitsu/jInterpreter.py:160-161 | `next -e` with a count of one over a queue whose entries have no code drops them all and leaves IN empty, without the host shell |
| JudoShell.RunFresh | jiujitsu/jInterpreter.py:143-157 | running a node reached with an empty queue keeps the program, the index, the aliases and the history switch, and adds one saved record exactly when history is on or `-h` is given |
| JudoShell.PassBody | jiujitsu/jInterpreter.py:143-161 | the middle of a pass keeps the program, the index, the aliases and the history switch; working off pending actions changes only the live interpreter |
| JudoShell.NextPass | jiujitsu/jInterpreter.py:134-164 | a `get_next_node` error ends the pass with the shell unchanged; no pass changes the program, the aliases or the history switch |
| JudoShell.NextLoop | jiujitsu/jInterpreter.py:133-167 | `next` never changes the program, the aliases or the history switch; `NextLoopUnfolds` states the loop pass by pass |
| JudoShell.NextBuildsInPlace | jiujitsu/jInterpreter.py:136-155 | with history off, `next -i` leaves the index alone and the queue the build produced |
| JudoShell.Shell.constructor | jiujitsu/jInterpreter.py:19-33 | the new shell's value is the initial shell |
| JudoShell.Shell.GetNextNode | jiujitsu/jInterpreter.py:62-66 | returns `NextNode` of the shell |
| JudoShell.Shell.SaveState | jiujitsu/jInterpreter.py:79-86 | the shell becomes `Saved` of the old shell |
| JudoShell.Shell.Revive | jiujitsu/jInterpreter.py:179 | the given record becomes the live one and the saved records stay |
| JudoShell.Shell.Undo | jiujitsu/jInterpreter.py:170-187 | the shell and error are those of `undo` on the old shell |
| JudoShell.Shell.Skip | jiujitsu/jInterpreter.py:190-199 | the shell becomes `Skipped` of the old shell |
| JudoShell.Shell.Save | jiujitsu/jInterpreter.py:201-207 | the shell becomes `SavePoint` of the old shell |
| JudoShell.Shell.InchPass | jiujitsu/jInterpreter.py:237 | one pass of the loop: an error ends `InchTimes` there, otherwise one pass fewer remains |
| JudoShell.Shell.InchRun | jiujitsu/jInterpreter.py:227-237 | the loop leaves the interpreter and error `InchTimes` gives |
| JudoShell.Shell.Inch | jiujitsu/jInterpreter.py:210-242 | the shell and error are those of `InchCommand` |
| JudoShell.Shell.DrainRun | jiujitsu/jInterpreter.py:160-161 | the loop over pending actions, with `next`'s `-e` flag and count, leaves the interpreter and error `Drain` gives |
| JudoShell.Shell.RunFreshStep | jiujitsu/jInterpreter.py:143-157 | a node reached with an empty queue leaves the shell and error `RunFresh` gives |
| JudoShell.Shell.PassBodyStep | jiujitsu/jInterpreter.py:143-161 | the middle of a pass leaves the shell and error `PassBody` gives |
| JudoShell.Shell.RunPass | jiujitsu/jInterpreter.py:136-164 | the rest of a pass leaves the shell `NextPass` gives and stops exactly when it finishes |
| JudoShell.Shell.Advance | jiujitsu/jInterpreter.py:136-137 | the shell becomes `Advanced` of the old shell |
| JudoShell.Shell.NextStep | jiujitsu/jInterpreter.py:134-164 | one pass leaves the shell `NextPass` gives and stops exactly when it finishes |
| JudoShell.Shell.NextRun | jiujitsu/jInterpreter.py:133-167 | the loop leaves the shell and error `NextLoop` gives |
| JudoShell.Shell.Next | jiujitsu/jInterpreter.py:120-167 | the shell and error are those of `next` on the text |
| JudoShell.Shell.Var | jiujitsu/jInterpreter.py:355-366 | the shell and error are those of `var` on the text |
| JudoShell.Shell.Fs | jiujitsu/jInterpreter.py:369-405 | the shell and error are those of `fs` on the text |
| JudoShell.Shell.Truth | jiujitsu/jInterpreter.py:498-523 | the shell and error are those of `truth` on the text |
| JudoShell.Shell.History | jiujitsu/jInterpreter.py:419-446 | the shell and error are those of `history` on the text |
| JudoShell.Shell.Alias | jiujitsu/jInterpreter.py:566-586 | the shell and error are those of `alias` on the text |
| JudoShell.Shell.Dir | jiujitsu/jInterpreter.py:331-338 | the shell and error are those of `dir` on the text |
| JudoParse.Decode | build/lib/jiujitsu/jParser.py:33-42 | exactly the five escapes `n t \ " '` decode, each to its character |
| JudoParse.EscapeAt | build/lib/jiujitsu/jParser.py:30-46 | an escape decodes the character after the backslash; any other character, or none, is a `TypeError`, because the error message is built with a unary plus on a string |
| JudoParse.WordAt | build/lib/jiujitsu/jParser.py:52-60 | `ARG` reads the decoded text up to the end, a space or a colon, holds no colon, and is non-empty when the start does not stop it |
| JudoParse.QuoteBody | build/lib/jiujitsu/jParser.py:70-77 | the quote loop ends on the closing quote of the same kind, inside the text |
| JudoParse.QuoteAt | build/lib/jiujitsu/jParser.py:65-84 | `QUOTE` yields a quoted argument and stops at the end, a space or a colon; otherwise it raises `TypeError` or `ParseError` |
| JudoParse.SpaceEnd | build/lib/jiujitsu/jParser.py:24-26 | `skip_whitespace` stops at the first position that is not a space, and every position it passes is one |
| JudoParse.CommentEnd | build/lib/jiujitsu/jParser.py:135-139 | `skip_comment` passes no newline before the last position it reaches, and ends just past a newline unless the text runs out |
| JudoParse.FlagsAt | build/lib/jiujitsu/jParser.py:92-104 | `flags` moves past the dash and gives only one-letter flags |
| JudoParse.ArgsAt | build/lib/jiujitsu/jParser.py:107-132 | `args` gives only arguments, never flags; `ArgsShape` states their forms |
| JudoParse.FlagRun | build/lib/jiujitsu/jParser.py:100-102 | one flag per position read |
| JudoParse.FlagRunShape | build/lib/jiujitsu/jParser.py:100-104 | the flags are the characters from the start, one each, up to the first space, `;` or the end |
| JudoParse.ArgsShape | build/lib/jiujitsu/jParser.py:107-132 | every argument is a quoted one, a lone colon, or a non-empty word without a colon |
| JudoParse.ParsedShape | build/lib/jiujitsu/jParser.py:142-150 | flags come only from a text starting with a dash, each one character that is neither a space nor `;`, and the arguments have that shape |
| JudoParse.ParseText | build/lib/jiujitsu/jParser.py:142-150 | the empty text parses to no flags and no arguments, and a text not starting with a dash never yields flags |
| JudoParse.CommentSkipsLine | build/lib/jiujitsu/jParser.py:117-120 | a comment runs through the next newline and reading resumes after it |
| JudoParse.UnknownEscape | build/lib/jiujitsu/jParser.py:43-44 | an escape other than the five known ones stops the parse with `TypeError` |
| JudoParse.UnclosedQuote | build/lib/jiujitsu/jParser.py:71-77 | a quote that is never closed is an error |
| JudoParse.QuotedRoundTrip | build/lib/jiujitsu/jParser.py:65-84 | written with `unescape`, a quoted argument parses back as itself |
| JudoParse.QuotedArgs | build/lib/jiujitsu/jParser.py:126-127 | the escaped text between double quotes is one quoted argument |
| JudoParse.EscapeDecodes | build/lib/jiujitsu/jParser.py:33-42 | each written escape decodes to the character it stands for |
| JudoParse.QuoteBodyOfEscaped | build/lib/jiujitsu/jParser.py:70-77 | the quote loop reads an escaped text back as the original |
| JudoParse.PlainRoundTrip | build/lib/jiujitsu/jParser.py:52-60 | written with `unescape`, an unquoted argument without spaces, colons or quotes, not starting with a dash or a hash, parses back as itself |
| JudoParse.WordOfEscaped | build/lib/jiujitsu/jParser.py:52-60 | the word loop reads an escaped plain text back as the original |
| JudoParse.WordVerbatim | build/lib/jiujitsu/jParser.py:52-60 | an argument without escapes is taken character for character |
| JudoParse.QuoteVerbatim | build/lib/jiujitsu/jParser.py:70-78 | so is the body of a quote without escapes |
| JudoParse.ParseExample | build/lib/jiujitsu/jParser.py:142-150 | `-fg a "b c" -x` parses to the flags f and g and the arguments a, the quoted `b c` and `-x` |
| JudoParse.Parser.constructor | build/lib/jiujitsu/jParser.py:11-14 | a new parser holds the text at position 0 |
| JudoParse.Parser.CurrentChar | build/lib/jiujitsu/jParser.py:87-89 | the character at the position, or nothing past the end |
| JudoParse.Parser.Advance | build/lib/jiujitsu/jParser.py:18-20 | the position moves on by one |
| JudoParse.Parser.SkipWhitespace | build/lib/jiujitsu/jParser.py:24-26 | the position becomes the one `SpaceEnd` gives |
| JudoParse.Parser.SkipComment | build/lib/jiujitsu/jParser.py:135-139 | the position becomes the one `CommentEnd` gives |
| JudoParse.Parser.EscapeChar | build/lib/jiujitsu/jParser.py:30-46 | the position moves onto the escaped character and the result is `EscapeAt` |
| JudoParse.Parser.ReadArg | build/lib/jiujitsu/jParser.py:52-60 | the argument and position are those `WordAt` gives, or its error |
| JudoParse.Parser.ReadQuote | build/lib/jiujitsu/jParser.py:65-84 | the argument and position are those `QuoteAt` gives, or its error |
| JudoParse.Parser.ReadFlags | build/lib/jiujitsu/jParser.py:92-104 | the flags and position are those `flags` gives |
| JudoParse.Parser.ReadFlagRun | build/lib/jiujitsu/jParser.py:100-102 | the flags and position are those `FlagRun` gives |
| JudoParse.Parser.ReadArgs | build/lib/jiujitsu/jParser.py:107-132 | the result is `args` from the position |
| JudoParse.Parser.Parse | build/lib/jiujitsu/jParser.py:142-150 | the result is `parse` of the new text |
| JudoProgram.Advance | jParser.py:45-46 | `get_next_token` makes the next token current, reading further into the same text unless the current token was EOF, and keeps the alias table |
| JudoProgram.EatAt | jParser.py:56-63 | `eat` on the wrong type is a `ParseError`; on the right type it returns the current token and moves on |
| JudoProgram.FlagNodes | jParser.py:85-86 | the flag loop yields only flags and stops on a token that is not FLAG |
| JudoProgram.ArgNodes | jParser.py:87-88 | the argument loop yields only unquoted arguments and stops on a token that is not ARG |
| JudoProgram.CommandAt | jParser.py:79-89 | `command` needs a CMD token, names the command by its value, and builds a valid command |
| JudoProgram.SkipEoc | jParser.py:73-74 | after a command, an EOC token is eaten and anything else is left |
| JudoProgram.CommandStep | jParser.py:72-74 | one round of the `program` loop moves on and yields a valid command |
| JudoProgram.ProgramFrom | jParser.py:69-75 | `program` ends on EOF with only valid commands, and is empty on EOF |
| JudoProgram.EndCheckNeverFails | jParser.py:105-110 | the final EOF check of `parse` can never fail, so `parse` fails exactly when `program` does |
| JudoProgram.Init | jParser.py:34-36 | a new parser has a fresh lexer on the text with an empty alias table |
| JudoProgram.ListFlags | jParser.py:85-86 | on a token list: the FLAG tokens from a position on, one flag each, up to the first other token |
| JudoProgram.ListArgs | jParser.py:87-88 | the same for ARG tokens |
| JudoProgram.ListCommand | jParser.py:79-89 | on a token list, a command exists exactly where a CMD token stands |
| JudoProgram.ListStep | jParser.py:72-74 | the next command starts after the current one |
| JudoProgram.StreamStep | jParser.py:45-46 | moving on takes the current token off the tokens still to come |
| JudoProgram.AdvanceSynced | jParser.py:45-46 | a cursor at position p of the lexed tokens moves to p+1 |
| JudoProgram.FlagsSynced | jParser.py:85-86 | the flag loop reads what `ListFlags` reads and stops where it stops |
| JudoProgram.ArgsSynced | jParser.py:87-88 | the argument loop reads what `ListArgs` reads and stops where it stops |
| JudoProgram.CurrentIsNext | jParser.py:36 | the current token is the token at the cursor's position |
| JudoProgram.CommandSynced | jParser.py:79-89 | `command` succeeds exactly when `ListCommand` does, with the same command |
| JudoProgram.EocSynced | jParser.py:73-74 | eating the EOC moves one position exactly when an EOC stands there |
| JudoProgram.StepSynced | jParser.py:72-74 | a round of the loop agrees with the token-list round |
| JudoProgram.ProgramSynced | jParser.py:69-75 | `program` agrees with the token-list grammar from any position |
| JudoProgram.ParseFollowsGrammar | jParser.py:105-110 | on a text the lexer reads to its end, parsing while lexing gives the grammar's program over all the tokens |
| JudoProgram.ParseText | jParser.py:105-110 | the empty text parses to the empty program |
| JudoProgram.ParseLexesAll | jParser.py:105-110 | the parser succeeds only on a text the lexer reads to its end |
| JudoProgram.AdvanceLexes | jParser.py:45-46 | moving on keeps the lexer state sound and the remaining stream readable |
| JudoProgram.FlagsLexes | jParser.py:85-86 | so does the flag loop |
| JudoProgram.ArgsLexes | jParser.py:87-88 | so does the argument loop |
| JudoProgram.ProgramLexes | jParser.py:69-75 | a successful `program` leaves the lexer's stream readable end to end |
| JudoProgram.ParseExample | jParser.py:105-110 | `run -fg echo` is one command with two flags and one argument |
| JudoProgram.GrammarExample | jParser.py:69-89 | the token list of `run -fg echo` is that program |
| JudoProgram.FirstTokenExample | jParser.py:34-36 | `Parser("run else")` stands on the command token |
| JudoProgram.EatExample | jParser.py:56-63 | on `run else`, eating an ARG first fails and eating the CMD yields it |
| JudoProgram.Parser.Of | jParser.py:34-36 | the parser holds the given lexer and token |
| JudoProgram.Parser.Create | jParser.py:34-36 | a new parser on a fresh lexer standing on the first token, or the lexer's error |
| JudoProgram.Parser.New | jParser.py:40-41 | `new` runs the constructor again, so the lexer is a fresh one |
| JudoProgram.Parser.Eat | jParser.py:56-63 | the token and new state are those `EatAt` gives |
| JudoProgram.Parser.ReadFlag | jParser.py:93-95 | eats a FLAG token and returns its flag |
| JudoProgram.Parser.ReadArgument | jParser.py:99-100 | eats an ARG token and returns its unquoted argument |
| JudoProgram.Parser.ReadFlags | jParser.py:85-86 | the loop gives what `FlagNodes` gives |
| JudoProgram.Parser.ReadArgs | jParser.py:87-88 | the loop gives what `ArgNodes` gives |
| JudoProgram.Parser.ReadCommand | jParser.py:79-89 | the command and state are those `CommandAt` gives |
| JudoProgram.Parser.ReadStep | jParser.py:72-74 | the command and state are those `CommandStep` gives |
| JudoProgram.Parser.ReadProgram | jParser.py:69-75 | the program and state are those `ProgramFrom` gives |
| JudoProgram.Parser.Parse | jParser.py:105-110 | with a text, the parse of that text; without one, the parse from the current state |
| PyStr.DigitChar | jiujitsu/bpPrimitives.py:189 | the decimal digit character for a digit |
| PyStr.DigitValue | jiujitsu/bpPrimitives.py:189 | a digit character's value is below ten |
| PyStr.NatToString | jiujitsu/bpPrimitives.py:189-192 | `str(n)` is a non-empty run of ASCII digits |
| PyStr.DigitsValueOfNatToString | jiujitsu/jInterpreter.py:130-132 | `int(str(n)) == n` |
| PyStr.NatToStringInjective | jiujitsu/bpInterpreterBase.py:604 | distinct numbers have distinct decimal spellings |
| PyStr.Split | jiujitsu/bpInterpreterBase.py:560 | `split` always gives at least one piece, and no piece holds the separator |
| PyStr.ReplaceCharAppend | jiujitsu/bpInterpreterBase.py:560 | replacing a character distributes over concatenation |
| PyStr.JoinSplitIsReplace | jiujitsu/bpInterpreterBase.py:560 | joining the pieces of a split with `d` replaces every separator by `d` |
| PyStr.SplitJoin | jiujitsu/jInterpreter.py:50-60 | splitting a one-character join of pieces without the separator gives the pieces back |
| PyStr.Lower | jiujitsu/bpInterpreterBase.py:210 | `lower` maps each ASCII capital to its small letter and keeps every other character; `Interpreting.LowerIdempotent` and `Interpreting.TruthValueIgnoresCase` build on it |
| PyStr.StripEmptyIff | jiujitsu/bpInterpreterBase.py:641 | a stripped text is empty exactly when every character is whitespace |
| PyStr.PyIndex | jiujitsu/jInterpreter.py:65 | Python indexing: defined from -len to len-1, negative indices counting from the end; `Engine.DollarSearch` states its found position through it |
| PyStr.SliceBound | jiujitsu/bpPrimitives.py:117-131 | a slice bound is clamped into the sequence and kept when already inside |
| PyStr.SliceSplit | jiujitsu/bpPrimitives.py:117-131 | `s[:i] + s[i:] == s` for every `i` |
| PyStr.DropLast | jiujitsu/bpPrimitives.py:117-131 | `s[:-1]` drops the last element and leaves the empty sequence empty |

## Left out

- Host I/O: `InterpreterBase.shell`, `do_shell` and the `-e` flag of `next` and `inch` run real subprocesses. The unknown-command prompt's host run is an `Operator.shell` answer. `f_bash` reparses text through bashparser and gives an `Unmodelled` error. Where `-e` hands text to `do_shell`, the model stops with an `Unmodelled("host shell")` error; pending entries without code are dropped and IN emptied as in the source (`JudoShell.ShellTimes`).
- JudoShell.InchCommand: with `-e`, a pass whose front entry has code stops with `Unmodelled`, where the source runs that code on the host, then drops the entry, empties IN and goes on.
- JudoShell.Shell.Inch: the same as `JudoShell.InchCommand`.
- JudoShell.RunFresh: with `-e`, a node reached with an empty queue stops with `Unmodelled` after the save point, where the source runs the node's text on the host and then builds or runs the node as well.
- JudoShell.NextCommand: `next -e` stops with `Unmodelled` where `RunFresh` or `InchCommand` does, for the reasons above.
- JudoShell.Shell.Next: the same as `JudoShell.NextCommand`.
- JudoShell.InchLoop: with `-e`, a pending entry that has code stops with `Unmodelled` where the source runs it on the host (through `InchLoop`/`ShellTimes`, or `RunFresh` for a node reached with an empty queue); entries without code are dropped and IN emptied as in the source.
- JudoShell.PassBody: with `-e`, a pending entry that has code stops with `Unmodelled` where the source runs it on the host (through `InchLoop`/`ShellTimes`, or `RunFresh` for a node reached with an empty queue); entries without code are dropped and IN emptied as in the source.
- JudoShell.NextPass: with `-e`, a pending entry that has code stops with `Unmodelled` where the source runs it on the host (through `InchLoop`/`ShellTimes`, or `RunFresh` for a node reached with an empty queue); entries without code are dropped and IN emptied as in the source.
- JudoShell.NextLoop: with `-e`, a pending entry that has code stops with `Unmodelled` where the source runs it on the host (through `InchLoop`/`ShellTimes`, or `RunFresh` for a node reached with an empty queue); entries without code are dropped and IN emptied as in the source.
- JudoShell.Shell.PassBodyStep: with `-e`, a pending entry that has code stops with `Unmodelled` where the source runs it on the host (through `InchLoop`/`ShellTimes`, or `RunFresh` for a node reached with an empty queue); entries without code are dropped and IN emptied as in the source.
- JudoShell.Shell.RunPass: with `-e`, a pending entry that has code stops with `Unmodelled` where the source runs it on the host (through `InchLoop`/`ShellTimes`, or `RunFresh` for a node reached with an empty queue); entries without code are dropped and IN emptied as in the source.
- JudoShell.Shell.NextStep: with `-e`, a pending entry that has code stops with `Unmodelled` where the source runs it on the host (through `InchLoop`/`ShellTimes`, or `RunFresh` for a node reached with an empty queue); entries without code are dropped and IN emptied as in the source.
- JudoShell.Shell.NextRun: with `-e`, a pending entry that has code stops with `Unmodelled` where the source runs it on the host (through `InchLoop`/`ShellTimes`, or `RunFresh` for a node reached with an empty queue); entries without code are dropped and IN emptied as in the source.
- Interactive prompts are `Operator` answers, not behaviour: `query_user_for_truth`, the unknown-command prompt, the file read by a `<` redirect (with `open()`), and the page `f_wget` fetches.
- bashparser is not part of this model. `parse`, `NodeVisitor` rendering, `replace_variables`, `substitute_variables`, `update_variable_list`, `build_fn_table`, `resolve_functions` and `DONT_DESCEND` are the fields of the `Bashparser` parameter. Nothing is assumed about them.
- The `cmd.Cmd` loop and its plumbing are left out: `preloop` stdout redirection, `default` alias dispatch, `do_load` and `do_env` file I/O, `do_exit`, `do_quit`, `do_reset`, `do_run`, `do_build`, `do_stdin`, `do_stdout`, `do_screen` and `do_void`. `import_config` is modelled as "no config file present".
- Presentation only: `stateText`, `showState`, `fileSystemText`, `functionsText`, `do_stack`, `do_list`, `do_state`, `do_parse`, `do_tokenize` and the `-p` printing of each command only print, so the model keeps their state effects and drops the text.
- JSON: `State.json` and `InterpreterBase.json` are not modelled beyond the constructor's normalisation of a list-form fs into a map. `Record.json` keeps the interpreter's own json form as the interpreter value.
- Python's dynamic type checks are not modelled: `InterpreterError` on a non-node or non-bool argument, and the `type(...)` checks in `InterpreterBase.set_truth`, `set_variable` and `update_file_system`. Dafny's types rule those inputs out.
- The lexer's `token_index` field is never read and is not modelled.
- Node identity: command substitution rewrites `node.word`/`node.parts` in place. The model keeps rewritten nodes in an indexed cell heap, and each compilation makes fresh cells. The source instead reuses one node object across `for` iterations and across re-runs of a node, so a second run sees the text spliced in by the first. The model does not capture that.
- Deep copies of the pending stack: the function-call, `if`-gate and "execute" paths deep-copy the remaining actions (jiujitsu/bpInterpreterBase.py:463, 489, 606). `deepcopy` keeps a nested function as it is, so most entries still act on the live interpreter. It re-binds a bound method, so the entries built on `transferFunc`, `initialize_state_for_new_command`, `exit_node_cleanup` and the pipeline's `STDIO.transfer` act on a copy, and their effect is lost. The model's pending actions all act on the live state.
- Aliasing: `copy_file` makes source and destination share one `File`, so a later `setPermissions` on one shows in both. The model stores files as values, so after `cp` the two keys hold equal but independent files. A compiled pipeline's transfer action is bound to the STDIO object of compile time. The model applies it to the current STDIO.
- JudoShell.Saved: `save_state` deep-copies the interpreter (jiujitsu/jInterpreter.py:83), keeps the old one in the record before the live one, and makes the copy live. The model freezes the old value into that record. `deepcopy` re-binds the bound-method entries of the pending queue to the copy, but a nested-function entry stays bound to the old interpreter. Most entries are nested functions, for example the compound-redirect actions (jiujitsu/bpInterpreterBase.py:307-353) and the command action (:594-650). So after `next -i`, `save x` and `inch`, the source's command entry changes the interpreter held by the saved record and not the live one. In the model every pending entry acts on the live interpreter.
- JudoShell.Shell.SaveState: the same as `JudoShell.Saved`.
- Unbounded loops: `run`, `next` and the draining loops can run forever in the source. The model bounds each with a `fuel` parameter and stops where the fuel runs out, so programs that run longer than the fuel are not covered.
- Exceptions inside bashparser's own functions are not modelled. After an exception of the interpreter itself, the model returns the state as it was at the raise.
- `str.isdigit` and `str.lower` are modelled on ASCII only. So is the `isnumeric()` and `int()` test of Engine.Separate (jiujitsu/bpInterpreterBase.py:374, 377): `IsDigits` and `DigitsValue` accept only ASCII digits, while Python counts `'½'` as numeric (and `int` then raises `ValueError`) and reads `'٣'` as 3.
- `add_alias` type-checks its inputs with `type(...)`. Both are strings here, so only the stored tokens are modelled.
- Builtins.Call: `rm` runs the corrected `Builtins.Rm`, not `Builtins.RmAsWritten`. So `rm a` with only `<wd>/a` stored removes the file, where the source raises `KeyError` and keeps it (see "## Findings").
- Builtins.Rm: this is the corrected rm. The source's behaviour is `Builtins.RmAsWritten`.
- Engine.ExecCommand: a command `rm` takes the corrected path of `Builtins.Call`, so its effect differs from the source in the case above.
- JudoLex.QuoteStep: this is the intended `QUOTE`, which yields one ARG token. The source always raises `TypeError` (jLexer.py:194, see "## Findings").
- JudoLex.TokenAt: the quote branch runs the intended `QuoteStep`, so `cmd "a b"` yields ARG `a b` where the source raises `TypeError`.
- JudoLex.NextToken: through `TokenAt`, a quoted argument is a token, not the source's `TypeError`.
- JudoLex.AllTokens: through `NextToken`, a text with a quoted argument lexes fully instead of raising `TypeError`.
- JudoLex.Lexer.Quote: returns the intended ARG token where the source's `QUOTE` raises `TypeError`.
- JudoLex.Lexer.ReadToken: equals `TokenAt`, so it takes the intended quote branch.
- JudoLex.Lexer.GetNextToken: equals `NextToken`, so it takes the intended quote branch.
- JudoLex.Lexer.GetAllTokens: equals `AllTokens`, so it takes the intended quote branch.
- JudoProgram.Parser.Parse: the parse lexes with the intended quote branch, so `cmd "a b"` parses where the source raises `TypeError`. The same holds for the `JudoProgram` lemmas that relate the parse to the lexed tokens.
- FileSystem.FileSocket.Write: the source decodes a `bytes` argument as UTF-8 and applies `str()` to any other value. Text is the only input here. The new OUT that `write` returns is the OUT of the returned socket.
- Primitives.State.Stdin: `STDIN` and `STDOUT` decode `bytes` and apply `str()` to other values. The model takes text only.
- Primitives.State.Stdout: the same as `Stdin`.
- Error messages are not modelled. The `ValueError`s of `interpreter` drop the `'\n' + node.dump()` text (jiujitsu/bpInterpreterBase.py:531, 537). `eat` prints the token type before it raises (jParser.py:61), and that print is dropped.
- JudoRecord.FromJson: a name or action that is not text is turned into text by `str()` in the source, and an env that is not a dict is kept as it is. Both cases give `Unmodelled` here.
- JudoRecord.JsonRoundTrip: the round trip holds for the model's record, whose `env` key carries the interpreter value whole. In the source, `Record.__init__` rebuilds the interpreter with `InterpreterBase(**env)` (jiujitsu/jRecord.py:5), which takes only `STDIO`, `working_dir`, `variables`, `fs`, `open_sockets`, `truths` and `execute` (jiujitsu/bpInterpreterBase.py:15-16). So a reloaded record there loses the action stack, the functions, the screen and the scopes, and its `STDIO` and files are plain dicts; `str(None)` contents come back as the text `None` (`FileSystem.FileJsonRoundTrip` states that last part). The model does not capture that loss.
- JudoRecord.Json: the `env` key holds the interpreter value, not the source's json dict of `InterpreterBase.json`.
- JudoLex.QuoteTokenAsWritten: its contract states only that it always fails (`r.Err?`). Its relation to the corrected `QuoteToken` is the lemma `QuotedArgumentAlwaysRaises`.

## Findings

| source | as written | input that shows it | evidently intended | confidence | as-written member | corrected member |
|---|---|---|---|---|---|---|
| jiujitsu/bpInterpreter.py:80-81 | the guard accepts a name stored under the working directory, but `pop` removes the bare name, so it raises `KeyError` | `rm a` in `~` when only `~/a` is stored | remove the key the guard found | high, not executed | Builtins.RmAsWrittenMissesPrefixedName | Builtins.RmRemovesFirstDocument |
| jLexer.py:194 | `QUOTE` builds `Token(..., quoted=True)`, but `Token` takes no `quoted` argument, so every quoted argument raises `TypeError` | `cmd "a b"` | one ARG token holding `a b`, as the lexer's own unit tests expect | high, not executed | JudoLex.QuotedArgumentAlwaysRaises | JudoLex.QuoteVerbatim |
| jNode.py:52-61 | `Command.__eq__` checks membership in one direction only, so equality is not symmetric when arguments repeat; `Program.__eq__` inherits this (`JudoNodes.ProgramEqualityNotSymmetric`) | `f x x` against `f x y` | an order-insensitive equality that is an equivalence | medium, not executed | JudoNodes.CommandEqualityNotSymmetric | JudoNodes.EquivalentIsEquivalence |
