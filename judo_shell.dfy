/**
 * The Judo shell: the command-line driver that keeps a list of program nodes, a
 * position in it, the interpreter the nodes run in, and a history of saved
 * interpreters that `undo` walks back through.
 *
 * `ShellValue` is what the shell holds. The history is never empty, so it is
 * kept as the records before the last one (`past`) and the last one (`live`),
 * whose interpreter is the live one: saving a point freezes the current value
 * in the records before it, and undoing drops the last record and revives the
 * one before it. The `Shell` class keeps the same things in fields and each of its
 * methods is proved to leave them as the function of the same name says.
 */
module JudoShell {
  import opened Wrappers
  import opened PyStr
  import opened FileSystem
  import opened Primitives
  import opened BashAst
  import opened Actions
  import opened Engine
  import opened Interpreting
  import opened JudoNodes
  import JudoParse
  import JudoRecord

  type Record = JudoRecord.Record

  datatype ShellValue = ShellValue(progNodes: seq<Node>, index: int, indexHistory: seq<int>,
                                   past: seq<Record>, live: Record, aliases: map<string, string>,
                                   maintainHistory: bool)

  /** `history_stack`: the records in order, the live one last. */
  function History(v: ShellValue): (h: seq<Record>)
    ensures |h| == |v.past| + 1 && h[..|v.past|] == v.past && h[|v.past|] == v.live
  {
    v.past + [v.live]
  }

  /** The shell after a command, and the exception the command raised, if any. */
  datatype Done = Done(v: ShellValue, err: Option<PyError>)

  /** What one pass of `next` leaves: the loop goes on, or the command is over. */
  datatype Turn = Continue(v: ShellValue) | Finish(d: Done)

  const Colon := Arg(":", false)

  /** The flags `next` and `inch` look at: `-i` (build only), `-h` (save a point),
      `-e` (use the host shell) and `-p` (show the state). */
  datatype Options = Options(inPlace: bool, history: bool, shell: bool, show: bool)

  function OptionsOf(flags: seq<Leaf>): (o: Options)
    ensures o.inPlace == In(Flag("i"), flags) && o.history == In(Flag("h"), flags)
    ensures o.shell == In(Flag("e"), flags) && o.show == In(Flag("p"), flags)
  {
    Options(In(Flag("i"), flags), In(Flag("h"), flags), In(Flag("e"), flags), In(Flag("p"), flags))
  }

  // ---------------------------------------------------------------------------
  // The shell's value

  /** `bpInterpreter()`: the default state and an empty queue. */
  function FreshMachine(): (m: Machine)
    ensures m.stack == [] && m.env.state == DefaultState() && m.env.execute && m.env.cells == []
  {
    Machine(Env(DefaultState(), [], true), [])
  }

  /** `Record(env, 'init')`. */
  function InitRecord(): (r: Record)
    ensures r.env == FreshMachine() && r.name == "init" && r.action == "None"
  {
    JudoRecord.NewRecord(FreshMachine(), "init", None)
  }

  /** The shell as `__init__` leaves it. */
  function InitialShell(maintainHistory: bool): (v: ShellValue)
    ensures History(v) == [InitRecord()] && v.index == 0 && v.indexHistory == [0]
    ensures v.progNodes == [] && v.aliases == map[] && v.maintainHistory == maintainHistory
  {
    ShellValue([], 0, [0], [], InitRecord(), map[], maintainHistory)
  }

  /** The live interpreter: the one the last record holds. */
  function Live(v: ShellValue): Machine {
    v.live.env
  }

  /** The shell with the live interpreter replaced; the saved records, and the name
      and action of the last one, are untouched. */
  function WithLive(v: ShellValue, m: Machine): (w: ShellValue)
    ensures Live(w) == m && w.live.name == v.live.name && w.live.action == v.live.action
    ensures w == v.(live := w.live)
  {
    v.(live := v.live.(env := m))
  }

  /** The shell with the live interpreter's state replaced. */
  function WithLiveState(v: ShellValue, s: StateValue): (w: ShellValue)
    ensures Live(w) == WithState(Live(v), s) && w == v.(live := w.live)
  {
    WithLive(v, WithState(Live(v), s))
  }

  // ---------------------------------------------------------------------------
  // Arguments as text

  predicate AllArgs(args: seq<Leaf>) {
    forall k :: 0 <= k < |args| ==> args[k].Arg?
  }

  /** The text one argument contributes: its value, or its `unescape()` form (a
      flag has none, and the text is then never used). */
  function Piece(a: Leaf, unescape: bool): string {
    if unescape && a.Arg? then Unescape(a) else a.value
  }

  /** The text each argument contributes. */
  function Texts(args: seq<Leaf>, unescape: bool): (ts: seq<string>)
    ensures |ts| == |args|
    ensures forall k :: 0 <= k < |args| ==> ts[k] == Piece(args[k], unescape)
    decreases |args|
  {
    if |args| == 0 then []
    else Texts(args[..|args| - 1], unescape) + [Piece(args[|args| - 1], unescape)]
  }

  /** `args_to_str`: the texts joined by single spaces. A flag has no `unescape`. */
  function ArgsText(args: seq<Leaf>, unescape: bool): (r: Result<string>)
    ensures r.Err? <==> unescape && !AllArgs(args)
    ensures r.Err? ==> r.error == AttributeError
    ensures r.Ok? ==> r.value == Join(Texts(args, unescape), " ")
  {
    if unescape && !AllArgs(args) then Err(AttributeError) else Ok(Join(Texts(args, unescape), " "))
  }

  /** Without `unescape` the text is always there. */
  function PlainText(args: seq<Leaf>): (s: string)
    ensures ArgsText(args, false) == Ok(s)
  {
    Join(Texts(args, false), " ")
  }

  /** Splitting the text on spaces gives back the values, when none holds a space. */
  lemma ArgsTextSplits(args: seq<Leaf>)
    requires |args| > 0
    requires forall k, j :: 0 <= k < |args| && 0 <= j < |args[k].value| ==> args[k].value[j] != ' '
    ensures Split(PlainText(args), ' ') == Texts(args, false)
  {
    var ts := Texts(args, false);
    assert forall k, j :: 0 <= k < |ts| && 0 <= j < |ts[k]| ==> ts[k][j] != ' ' by {
      forall k, j | 0 <= k < |ts| && 0 <= j < |ts[k]| ensures ts[k][j] != ' ' {
        assert ts[k] == args[k].value;
      }
    }
    SplitJoin(ts, ' ');
  }

  lemma {:induction false} JoinSnoc(ts: seq<string>, t: string)
    requires |ts| > 0
    ensures Join(ts + [t], " ") == Join(ts, " ") + " " + t
    decreases |ts|
  {
    if |ts| == 1 {
      assert (ts + [t])[1..] == [t];
    } else {
      JoinSnoc(ts[1..], t);
      assert (ts + [t])[1..] == ts[1..] + [t];
    }
  }

  /** The repeat count of `next`, `inch` and `skip`: the number the text spells, or 1. */
  function Count(s: string): (n: nat)
    ensures IsDigits(s) ==> n == DigitsValue(s)
    ensures !IsDigits(s) ==> n == 1
  {
    if IsDigits(s) then DigitsValue(s) else 1
  }

  /** `skip 12` counts twelve; a count is read back from the text `str(n)` writes. */
  lemma CountReadsNumbers(n: nat)
    ensures Count(NatToString(n)) == n
    ensures Count("") == 1 && Count("x") == 1
  {
    DigitsValueOfNatToString(n);
  }

  // ---------------------------------------------------------------------------
  // Position and history

  /** `get_next_node`: nothing past the end; Python indexing otherwise, so a negative
      index counts from the end and one below minus the length raises. */
  function NextNode(v: ShellValue): (r: Result<Option<Node>>)
    ensures v.index >= |v.progNodes| ==> r == Ok(None)
    ensures 0 <= v.index < |v.progNodes| ==> r == Ok(Some(v.progNodes[v.index]))
    ensures -|v.progNodes| <= v.index < 0 ==> r == Ok(Some(v.progNodes[|v.progNodes| + v.index]))
    ensures v.index < -|v.progNodes| ==> r == Err(IndexError)
  {
    if v.index >= |v.progNodes| then Ok(None)
    else
      match PyIndex(v.progNodes, v.index)
      case Some(n) => Ok(Some(n))
      case None => Err(IndexError)
  }

  /** `save_state(name, action)`: a record holding a copy of the live interpreter is
      appended, named by the old history length unless a name is given, and the
      index is remembered. */
  function Saved(v: ShellValue, name: Option<string>, action: Option<string>): (w: ShellValue)
    ensures History(w) == History(v) + [JudoRecord.NewRecord(Live(v), if name.Some? then name.value else NatToString(|History(v)|), action)]
    ensures Live(w) == Live(v)
    ensures w.indexHistory == v.indexHistory + [v.index]
    ensures w == v.(past := w.past, live := w.live, indexHistory := w.indexHistory)
  {
    var n := if name.Some? then name.value else NatToString(|v.past| + 1);
    v.(past := v.past + [v.live], live := JudoRecord.NewRecord(Live(v), n, action),
       indexHistory := v.indexHistory + [v.index])
  }

  /** Default names are distinct: each is the position the record takes. */
  lemma DefaultNamesDistinct(v: ShellValue, a: Option<string>, b: Option<string>)
    ensures var n, w := |History(v)|, History(Saved(Saved(v, None, a), None, b));
            |w| == n + 2 && w[n].name == NatToString(n) && w[n + 1].name == NatToString(n + 1) && w[n].name != w[n + 1].name
  {
    var n := |History(v)|;
    var w1 := Saved(v, None, a);
    assert History(Saved(w1, None, b))[n] == History(w1)[n];
    NatToStringInjective(n, n + 1);
  }

  /** The body of `do_undo` once the text has parsed: with a saved point, drop the
      last record, revive the one before it and step the index back; otherwise start
      again from a fresh interpreter. */
  function Undone(v: ShellValue): (w: ShellValue)
    ensures var h := History(v);
            |h| > 1 ==> History(w) == h[..|h| - 1] && Live(w) == h[|h| - 2].env
                        && w.indexHistory == PySliceTo(v.indexHistory, -1) && w.index == v.index - 1
    ensures |History(v)| == 1 ==> History(w) == [InitRecord()] && w.index == 0 && w.indexHistory == [0]
    ensures w == v.(past := w.past, live := w.live, index := w.index, indexHistory := w.indexHistory)
  {
    if |v.past| > 0 then
      v.(past := v.past[..|v.past| - 1], live := v.past[|v.past| - 1],
         indexHistory := PySliceTo(v.indexHistory, -1), index := v.index - 1)
    else
      v.(live := InitRecord(), index := 0, indexHistory := [0])
  }

  /** Undoing right after a save point gives back the history and live interpreter
      from before it, but the index still steps back. */
  lemma UndoAfterSave(v: ShellValue, name: Option<string>, action: Option<string>)
    ensures Undone(Saved(v, name, action)) == v.(index := v.index - 1)
  {
    var w := Saved(v, name, action);
    DropLast(w.indexHistory);
    assert w.past[..|w.past| - 1] == v.past;
    assert (v.indexHistory + [v.index])[..|v.indexHistory|] == v.indexHistory;
  }

  /** Whatever the interpreter did after a save point, undo discards it. */
  lemma UndoDiscardsLive(v: ShellValue, name: Option<string>, action: Option<string>, m: Machine)
    ensures Undone(WithLive(Saved(v, name, action), m)) == v.(index := v.index - 1)
  {
    UndoAfterSave(v, name, action);
  }

  /** Undo on the first record starts again: the shell is the initial one, whatever
      its position and interpreter were. */
  lemma UndoAtStart(v: ShellValue)
    requires |History(v)| == 1
    ensures Undone(v) == InitialShell(v.maintainHistory).(progNodes := v.progNodes, aliases := v.aliases)
    ensures Undone(InitialShell(v.maintainHistory)) == InitialShell(v.maintainHistory)
  {
  }

  /** `do_undo(text)`. */
  function UndoCommand(v: ShellValue, text: string): (d: Done)
    ensures JudoParse.ParseText(text).Err? ==> d == Done(v, Some(JudoParse.ParseText(text).error))
    ensures JudoParse.ParseText(text).Ok? ==>
      var (flags, args) := JudoParse.ParseText(text).value;
      d == Done(Undone(v), None)
  {
    match JudoParse.ParseText(text)
    case Err(e) => Done(v, Some(e))
    case Ok(_) => Done(Undone(v), None)
  }

  /** `do_skip(text)`: the index moves on by the count the raw text spells. */
  function Skipped(v: ShellValue, text: string): (w: ShellValue)
    ensures w == v.(index := v.index + Count(text))
    ensures w.index >= v.index
  {
    v.(index := v.index + Count(text))
  }

  /** Skips add up, and a text that is not a number skips one node. */
  lemma SkipsAdd(v: ShellValue, a: string, b: string)
    ensures Skipped(Skipped(v, a), b).index == v.index + Count(a) + Count(b)
    ensures !IsDigits(a) ==> Skipped(v, a).index == v.index + 1
  {
  }

  /** `do_save(name)`: nothing without a name, otherwise a point with that name and
      the action `User Save`. */
  function SavePoint(v: ShellValue, name: string): (w: ShellValue)
    ensures |name| == 0 ==> w == v
    ensures |name| > 0 ==> w == Saved(v, Some(name), Some("User Save"))
  {
    if |name| == 0 then v else Saved(v, Some(name), Some("User Save"))
  }

  /** A named save point keeps the name and the action `User Save`, and undo removes
      it again (stepping the index back although saving did not advance it). */
  lemma SavePointNamed(v: ShellValue, name: string)
    requires |name| > 0
    ensures History(SavePoint(v, name)) == History(v) + [JudoRecord.Record(Live(v), name, "User Save")]
    ensures Undone(SavePoint(v, name)) == v.(index := v.index - 1)
  {
    UndoAfterSave(v, Some(name), Some("User Save"));
  }

  // ---------------------------------------------------------------------------
  // Variables, files, truths, aliases and the working directory

  /** `do_var`: `name : value` groups are set while they last. */
  function SetVars(s: StateValue, args: seq<Leaf>): (r: StateValue)
    ensures r == s.(variables := r.variables)
    decreases |args|
  {
    if |args| >= 3 && Equal(args[1], Colon) then
      SetVars(s.SetVariable(args[0].value, Scalar(args[2].value)), args[3..])
    else s
  }

  /** The leading `name : value` groups. */
  function VarPairs(args: seq<Leaf>): seq<(string, string)>
    decreases |args|
  {
    if |args| >= 3 && Equal(args[1], Colon) then [(args[0].value, args[2].value)] + VarPairs(args[3..]) else []
  }

  /** The variables after storing each pair in turn. */
  function Assigned(vars: Vars, ps: seq<(string, string)>): Vars
    decreases |ps|
  {
    if |ps| == 0 then vars else Assigned(vars[ps[0].0 := [ps[0].1]], ps[1..])
  }

  /** `do_var` changes only the variables, and stores the groups in order. */
  lemma {:induction false} SetVarsAssigns(s: StateValue, args: seq<Leaf>)
    ensures SetVars(s, args) == s.(variables := Assigned(s.variables, VarPairs(args)))
    decreases |args|
  {
    if |args| >= 3 && Equal(args[1], Colon) {
      var s1 := s.SetVariable(args[0].value, Scalar(args[2].value));
      SetVarsAssigns(s1, args[3..]);
      var ps := VarPairs(args);
      assert ps[0] == (args[0].value, args[2].value) && ps[1..] == VarPairs(args[3..]);
    }
  }

  /** After storing pairs in turn, a name is set exactly when it was set before or
      some pair names it; it then holds the value of the last pair naming it, and
      otherwise keeps its old value. */
  lemma {:induction false} AssignedLastWins(vars: Vars, ps: seq<(string, string)>, key: string)
    ensures key in Assigned(vars, ps) <==> key in vars || exists i :: 0 <= i < |ps| && ps[i].0 == key
    ensures (forall i :: 0 <= i < |ps| ==> ps[i].0 != key) && key in vars ==> Assigned(vars, ps)[key] == vars[key]
    ensures forall i :: 0 <= i < |ps| && ps[i].0 == key && (forall j :: i < j < |ps| ==> ps[j].0 != key)
                        ==> Assigned(vars, ps)[key] == [ps[i].1]
    decreases |ps|
  {
    if |ps| > 0 {
      var v1 := vars[ps[0].0 := [ps[0].1]];
      AssignedLastWins(v1, ps[1..], key);
      assert forall i :: 1 <= i < |ps| ==> ps[i] == ps[1..][i - 1];
      if exists i :: 0 <= i < |ps| && ps[i].0 == key {
        var i :| 0 <= i < |ps| && ps[i].0 == key;
        if i > 0 {
          assert ps[1..][i - 1].0 == key;
        }
      }
      forall i | 0 <= i < |ps| && ps[i].0 == key && (forall j :: i < j < |ps| ==> ps[j].0 != key)
        ensures Assigned(vars, ps)[key] == [ps[i].1]
      {
        if i > 0 {
          assert ps[1..][i - 1] == ps[i];
          assert forall j :: i - 1 < j < |ps| - 1 ==> ps[1..][j].0 != key by {
            forall j | i - 1 < j < |ps| - 1 ensures ps[1..][j].0 != key {
              assert ps[1..][j] == ps[j + 1];
            }
          }
        } else {
          assert forall j :: 0 <= j < |ps| - 1 ==> ps[1..][j].0 != key by {
            forall j | 0 <= j < |ps| - 1 ensures ps[1..][j].0 != key {
              assert ps[1..][j] == ps[j + 1];
            }
          }
        }
      }
    }
  }

  /** The groups of `var name1:value1 name2 : value2`: each name holds its value. */
  lemma VarExample(s: StateValue)
    ensures var args := [Arg("name1", false), Colon, Arg("value1", false), Arg("name2", false), Colon, Arg("value2", false)];
            var r := SetVars(s, args);
            r.variables == s.variables["name1" := ["value1"]]["name2" := ["value2"]]
            && r == s.(variables := r.variables)
  {
    var args := [Arg("name1", false), Colon, Arg("value1", false), Arg("name2", false), Colon, Arg("value2", false)];
    var rest := [Arg("name2", false), Colon, Arg("value2", false)];
    assert args[3..] == rest;
    assert rest[3..] == [];
    var s1 := s.SetVariable("name1", Scalar("value1"));
    var s2 := s1.SetVariable("name2", Scalar("value2"));
    assert SetVars(s1, rest) == SetVars(s2, []) == s2;
    assert SetVars(s, args) == SetVars(s1, rest);
  }

  /** `do_fs`: `name : contents [: permissions]` groups are added to the file system,
      with `rw-rw-rw-` when no permissions are given. A name with nothing after it
      raises (`working_args[0]` of an empty list); a name not followed by `:`, or a
      `:` with nothing after it, ends the command quietly. The files added before
      stay. */
  function FsGroups(s: StateValue, args: seq<Leaf>): (o: (StateValue, Option<PyError>))
    ensures o.1.None? || o.1 == Some(IndexError)
    decreases |args|
  {
    if |args| == 0 then (s, None)
    else if |args| == 1 then (s, Some(IndexError))
    else if !Equal(args[1], Colon) then (s, None)
    else if |args| == 2 then (s, None)
    else
      var rest := args[3..];
      var perms := if |rest| >= 2 && Equal(rest[0], Colon) then rest[1].value else DefaultPermissions;
      var more := if |rest| >= 2 && Equal(rest[0], Colon) then rest[2..] else rest;
      match s.UpdateFileSystem(args[0].value, args[2].value, perms, None)
      case Err(e) => (s, Some(e))
      case Ok(s1) => FsGroups(s1, more)
  }

  /** `do_fs` changes nothing but the file system. */
  lemma {:induction false} FsGroupsOnlyFiles(s: StateValue, args: seq<Leaf>)
    ensures FsGroups(s, args).0 == s.(fs := FsGroups(s, args).0.fs)
    ensures forall k :: k in s.fs ==> k in FsGroups(s, args).0.fs
    decreases |args|
  {
    if |args| >= 3 && Equal(args[1], Colon) {
      var rest := args[3..];
      var perms := if |rest| >= 2 && Equal(rest[0], Colon) then rest[1].value else DefaultPermissions;
      var more := if |rest| >= 2 && Equal(rest[0], Colon) then rest[2..] else rest;
      var r := s.UpdateFileSystem(args[0].value, args[2].value, perms, None);
      if r.Ok? {
        FsGroupsOnlyFiles(r.value, more);
      }
    }
  }

  /** One group without permissions gets the default ones. */
  lemma FsDefaultPermissions(s: StateValue, name: string, contents: string)
    requires |name| > 0
    ensures var p := ResolvePath(name, s.workingDir).value;
            FsGroups(s, [Arg(name, false), Colon, Arg(contents, false)])
            == (s.(fs := s.fs[p := File(p, Some(contents), DefaultPermissions)]), None)
  {
    var args := [Arg(name, false), Colon, Arg(contents, false)];
    assert args[3..] == [];
  }

  /** `fs name1` raises, while `fs name1 contents1` ends quietly. */
  lemma FsMalformed(s: StateValue, name: string, other: Leaf)
    requires !Equal(other, Colon)
    ensures FsGroups(s, [Arg(name, false)]) == (s, Some(IndexError))
    ensures FsGroups(s, [Arg(name, false), other]) == (s, None)
    ensures FsGroups(s, [Arg(name, false), Colon]) == (s, None)
  {
  }

  /** `do_truth` once the text has parsed: `statement : value` triples are set in
      turn; at the first malformed one the truths go back to `saved`. */
  function TruthLoop(s: StateValue, saved: map<string, Truth>, args: seq<Leaf>): (r: StateValue)
    ensures r == s.(truths := r.truths)
    decreases |args|
  {
    if |args| == 0 then s
    else if |args| < 3 || !Equal(args[1], Colon) then s.(truths := saved)
    else TruthLoop(s.SetTruth(args[0].value, TruthValue(Str(args[2].value))), saved, args[3..])
  }

  /** The arguments are nothing but `statement : value` triples. */
  predicate TruthTriples(args: seq<Leaf>)
    decreases |args|
  {
    |args| == 0 || (|args| >= 3 && Equal(args[1], Colon) && TruthTriples(args[3..]))
  }

  /** The truths as each well-formed triple sets them. */
  function TruthsSet(truths: map<string, Truth>, args: seq<Leaf>): map<string, Truth>
    decreases |args|
  {
    if |args| >= 3 && Equal(args[1], Colon) then
      TruthsSet(truths[args[0].value := Bool(TruthValue(Str(args[2].value)))], args[3..])
    else truths
  }

  /** `do_truth` is all or nothing: when the arguments are all triples every one is
      set and nothing else changes; otherwise the state is exactly as before. */
  lemma TruthAllOrNothing(s: StateValue, args: seq<Leaf>)
    ensures TruthTriples(args) ==> TruthLoop(s, s.truths, args) == s.(truths := TruthsSet(s.truths, args))
    ensures !TruthTriples(args) ==> TruthLoop(s, s.truths, args) == s
  {
    TruthLoopShape(s, s.truths, args);
  }

  lemma {:induction false} TruthLoopShape(s: StateValue, saved: map<string, Truth>, args: seq<Leaf>)
    ensures TruthTriples(args) ==> TruthLoop(s, saved, args) == s.(truths := TruthsSet(s.truths, args))
    ensures !TruthTriples(args) ==> TruthLoop(s, saved, args) == s.(truths := saved)
    decreases |args|
  {
    if |args| >= 3 && Equal(args[1], Colon) {
      var s1 := s.SetTruth(args[0].value, TruthValue(Str(args[2].value)));
      TruthLoopShape(s1, saved, args[3..]);
    }
  }

  /** `truth this:true that:false` sets both; `truth this:true two`, with a lone
      `two` at the end, sets none. */
  lemma TruthExample(s: StateValue)
    ensures var args := [Arg("this", false), Colon, Arg("true", false), Arg("that", false), Colon, Arg("false", false)];
            TruthLoop(s, s.truths, args).truths == s.truths["this" := Bool(true)]["that" := Bool(false)]
    ensures var args := [Arg("this", false), Colon, Arg("true", false), Arg("two", false)];
            TruthLoop(s, s.truths, args) == s
  {
    var args := [Arg("this", false), Colon, Arg("true", false), Arg("that", false), Colon, Arg("false", false)];
    var rest := [Arg("that", false), Colon, Arg("false", false)];
    assert args[3..] == rest;
    assert rest[3..] == [];
    TruthValueIgnoresCase("true");
    TruthValueIgnoresCase("false");
    var s1 := s.SetTruth("this", true);
    var s2 := s1.SetTruth("that", false);
    assert TruthLoop(s1, s.truths, rest) == TruthLoop(s2, s.truths, []) == s2;
    assert TruthLoop(s, s.truths, args) == TruthLoop(s1, s.truths, rest);
    var bad := [Arg("this", false), Colon, Arg("true", false), Arg("two", false)];
    assert bad[3..] == [Arg("two", false)];
    TruthAllOrNothing(s, bad);
  }

  /** `do_history` once the text has parsed: `-r` starts the history again from a
      fresh interpreter (the index and its history are kept), then `on`, `off` and
      `toggle` are applied in that order. */
  function HistoryWith(v: ShellValue, flags: seq<Leaf>, args: seq<Leaf>): (w: ShellValue)
    ensures In(Flag("r"), flags) ==> History(w) == [InitRecord()]
    ensures !In(Flag("r"), flags) ==> w.past == v.past && w.live == v.live
    ensures w == v.(past := w.past, live := w.live, maintainHistory := w.maintainHistory)
  {
    var v1 := if In(Flag("r"), flags) then v.(past := [], live := InitRecord()) else v;
    var m1 := if In(Arg("on", false), args) then true else v1.maintainHistory;
    var m2 := if In(Arg("off", false), args) then false else m1;
    var m3 := if In(Arg("toggle", false), args) then !m2 else m2;
    v1.(maintainHistory := m3)
  }

  /** `history on` turns saving on and `history off` turns it off, whatever it was;
      `history toggle` negates it, so toggling twice changes nothing. */
  lemma HistorySwitches(v: ShellValue)
    ensures HistoryWith(v, [], [Arg("on", false)]).maintainHistory
    ensures !HistoryWith(v, [], [Arg("off", false)]).maintainHistory
    ensures HistoryWith(v, [], [Arg("toggle", false)]).maintainHistory == !v.maintainHistory
    ensures HistoryWith(HistoryWith(v, [], [Arg("toggle", false)]), [], [Arg("toggle", false)]) == v
    ensures !HistoryWith(v, [], [Arg("on", false), Arg("off", false)]).maintainHistory
  {
    assert Equal(Arg("on", false), [Arg("on", false)][0]);
    assert Equal(Arg("off", false), [Arg("off", false)][0]);
    assert Equal(Arg("toggle", false), [Arg("toggle", false)][0]);
    assert Equal(Arg("off", false), [Arg("on", false), Arg("off", false)][1]);
  }

  /** `do_alias` once the text has parsed: `-p` looks each name up (a missing one
      raises), `-a` only shows the table, and otherwise the first argument names
      the text of the others. */
  function AliasWith(v: ShellValue, flags: seq<Leaf>, args: seq<Leaf>): (d: Done)
    ensures In(Flag("p"), flags) || In(Flag("a"), flags) ==> d.v == v
    ensures In(Flag("p"), flags) ==> (d.err == Some(KeyError) <==> exists k :: 0 <= k < |args| && args[k].value !in v.aliases)
    ensures !In(Flag("p"), flags) && !In(Flag("a"), flags) && |args| == 0 ==> d == Done(v, Some(IndexError))
    ensures !In(Flag("p"), flags) && !In(Flag("a"), flags) && |args| > 0 ==>
              d == Done(v.(aliases := v.aliases[args[0].value := PlainText(args[1..])]), None)
  {
    if In(Flag("p"), flags) then
      if exists k :: 0 <= k < |args| && args[k].value !in v.aliases then Done(v, Some(KeyError)) else Done(v, None)
    else if In(Flag("a"), flags) then Done(v, None)
    else if |args| == 0 then Done(v, Some(IndexError))
    else Done(v.(aliases := v.aliases[args[0].value := PlainText(args[1..])]), None)
  }

  /** `alias t run echo this` stores `run echo this` under `t`, and a later `alias
      -p t` finds it. */
  lemma AliasExample(v: ShellValue)
    ensures var args := [Arg("t", false), Arg("run", false), Arg("echo", false), Arg("this", false)];
            var d := AliasWith(v, [], args);
            d.err.None? && d.v.aliases == v.aliases["t" := "run echo this"]
            && AliasWith(d.v, [Flag("p")], [Arg("t", false)]) == Done(d.v, None)
  {
    var args := [Arg("t", false), Arg("run", false), Arg("echo", false), Arg("this", false)];
    var rest := args[1..];
    assert Texts(rest, false) == ["run", "echo", "this"];
    assert Join(["run", "echo", "this"], " ") == "run echo this" by {
      assert ["run", "echo", "this"][1..] == ["echo", "this"];
      assert ["echo", "this"][1..] == ["this"];
    }
    assert In(Flag("p"), [Flag("p")]) by {
      assert Equal(Flag("p"), [Flag("p")][0]);
    }
  }

  /** `do_dir` once the text has parsed: exactly one argument becomes the working
      directory; otherwise nothing changes. */
  function DirWith(v: ShellValue, args: seq<Leaf>): (w: ShellValue)
    ensures |args| != 1 ==> w == v
    ensures |args| == 1 ==> w == WithLiveState(v, Live(v).env.state.(workingDir := args[0].value))
  {
    if |args| == 1 then WithLiveState(v, Live(v).env.state.(workingDir := args[0].value)) else v
  }

  // ---------------------------------------------------------------------------
  // Stepping through the program

  /** `do_inch`'s loop without `-e`: `n` single steps of the interpreter, a step
      on an empty queue doing nothing. */
  function InchTimes(bp: Bashparser, op: Operator, m: Machine, n: nat): (o: Outcome)
    ensures n == 0 ==> o == Fine(m)
    ensures |m.stack| == 0 ==> o == Fine(m)
    decreases n
  {
    if n == 0 then Fine(m)
    else if |m.stack| == 0 then InchTimes(bp, op, m, n - 1)
    else
      var o := Step(bp, op, m);
      if o.err.Some? then o else InchTimes(bp, op, o.m, n - 1)
  }

  /** Walks `do_inch`'s loop and `run`'s loop side by side, pass by pass; its
      contract is what the walk establishes: the two loops stop at the same machine
      with the same error. */
  ghost function InchAgrees(bp: Bashparser, op: Operator, m: Machine, n: nat): (b: bool)
    ensures b && InchTimes(bp, op, m, n) == RunFuel(bp, op, m, n)
    decreases n
  {
    if n == 0 || |m.stack| == 0 then true
    else
      var o := Step(bp, op, m);
      if o.err.Some? then true else InchAgrees(bp, op, o.m, n - 1)
  }

  /** Inching `n` times is running for at most `n` actions: a step on an empty
      queue does nothing, so the two loops stop at the same machine. */
  lemma {:induction false} InchIsRunFuel(bp: Bashparser, op: Operator, m: Machine, n: nat)
    ensures InchTimes(bp, op, m, n) == RunFuel(bp, op, m, n)
  {
    assert InchAgrees(bp, op, m, n);
  }

  /** A pass of `do_inch`'s `-e` loop that does not reach the host shell: the front
      entry is dropped without being called and IN is emptied. */
  function Skim(m: Machine): (w: Machine)
    requires |m.stack| > 0
    ensures w.stack == m.stack[1..] && w.env.cells == m.env.cells && w.env.execute == m.env.execute
    ensures w.env.state == m.env.state.(stdio := m.env.state.stdio.(IN := ""))
  {
    WithState(m, m.env.state.SetStdin(Some(""))).(stack := m.stack[1..])
  }

  /** `do_inch`'s loop with `-e`, `n` passes: each pass looks at the front entry
      (`action_stack[0]`, an `IndexError` on an empty queue); an entry with code is
      handed to the host shell, which is not part of this model, and any other entry
      is skimmed. */
  function ShellTimes(m: Machine, n: nat): (o: Outcome)
    ensures n == 0 ==> o == Fine(m)
    decreases n
  {
    if n == 0 then Fine(m)
    else if |m.stack| == 0 then Stop(m, IndexError)
    else if Code(m.stack[0]) != "" then Stop(m, Unmodelled("host shell"))
    else ShellTimes(Skim(m), n - 1)
  }

  /** How many entries at the front of the queue carry no code. */
  function Codeless(s: seq<Action>): (k: nat)
    ensures k <= |s|
    ensures forall i :: 0 <= i < k ==> Code(s[i]) == ""
    ensures k < |s| ==> Code(s[k]) != ""
  {
    if |s| == 0 || Code(s[0]) != "" then 0 else 1 + Codeless(s[1..])
  }

  /** The machine once the first `k` entries are skimmed. */
  function SkimmedBy(m: Machine, k: nat): Machine
    requires k <= |m.stack|
  {
    if k == 0 then m else WithState(m, m.env.state.SetStdin(Some(""))).(stack := m.stack[k..])
  }

  /** What `n` passes with `-e` leave, by the code-less prefix of the queue: the
      first `n` entries are skimmed when none of them has code; otherwise the passes
      skim up to the first entry with code and stop at the host shell, or, when no
      entry has code, empty the queue and raise `IndexError`. */
  lemma {:induction false} ShellTimesSkims(m: Machine, n: nat)
    ensures var k := Codeless(m.stack);
      if n <= k then ShellTimes(m, n) == Fine(SkimmedBy(m, n))
      else if k < |m.stack| then ShellTimes(m, n) == Stop(SkimmedBy(m, k), Unmodelled("host shell"))
      else ShellTimes(m, n) == Stop(SkimmedBy(m, k), IndexError)
    decreases n
  {
    if n > 0 && |m.stack| > 0 && Code(m.stack[0]) == "" {
      var w := Skim(m);
      ShellTimesSkims(w, n - 1);
      assert w.stack == m.stack[1..];
      assert Codeless(m.stack) == 1 + Codeless(w.stack);
      forall j: nat | 1 <= j <= |m.stack|
        ensures SkimmedBy(w, j - 1) == SkimmedBy(m, j)
      {
        assert w.stack[j - 1..] == m.stack[j..];
      }
    }
  }

  /** `do_inch`'s loop, with or without `-e`. */
  function InchLoop(bp: Bashparser, op: Operator, m: Machine, shell: bool, n: nat): (o: Outcome)
    ensures n == 0 ==> o == Fine(m)
  {
    if shell then ShellTimes(m, n) else InchTimes(bp, op, m, n)
  }

  /** `do_inch(text)`: nothing on an empty queue (the text is not even parsed),
      otherwise the count of passes the arguments spell. */
  function InchCommand(bp: Bashparser, op: Operator, v: ShellValue, text: string): (d: Done)
    ensures |Live(v).stack| == 0 ==> d == Done(v, None)
    ensures |Live(v).stack| > 0 && JudoParse.ParseText(text).Err? ==> d == Done(v, Some(JudoParse.ParseText(text).error))
    ensures |Live(v).stack| > 0 && JudoParse.ParseText(text).Ok? ==>
      var (flags, args) := JudoParse.ParseText(text).value;
      var n := Count(PlainText(args));
      if In(Flag("e"), flags) then d == Done(WithLive(v, ShellTimes(Live(v), n).m), ShellTimes(Live(v), n).err)
      else d == Done(WithLive(v, RunFuel(bp, op, Live(v), n).m), RunFuel(bp, op, Live(v), n).err)
  {
    if |Live(v).stack| == 0 then Done(v, None)
    else
      match JudoParse.ParseText(text)
      case Err(e) => Done(v, Some(e))
      case Ok((flags, args)) =>
        InchIsRunFuel(bp, op, Live(v), Count(PlainText(args)));
        var o := InchLoop(bp, op, Live(v), In(Flag("e"), flags), Count(PlainText(args)));
        Done(WithLive(v, o.m), o.err)
  }

  /** `next`'s loop over pending actions: `do_inch(text)`, with `next`'s own flags
      and count, while the queue is not empty, at most `fuel` times. */
  function Drain(bp: Bashparser, op: Operator, m: Machine, shell: bool, n: nat, fuel: nat): (o: Outcome)
    ensures |m.stack| == 0 ==> o == Fine(m)
    ensures n == 0 ==> o == Fine(m)
    decreases fuel
  {
    if |m.stack| == 0 || fuel == 0 then Fine(m)
    else
      var o := InchLoop(bp, op, m, shell, n);
      if o.err.Some? then o else Drain(bp, op, o.m, shell, n, fuel - 1)
  }

  /** `next -e` over a queue of entries without code, one pass per `do_inch`:
      every entry is dropped unrun and IN ends up empty; the host shell is never
      reached. */
  lemma {:induction false} DrainSkimsCodeless(bp: Bashparser, op: Operator, m: Machine, fuel: nat)
    requires 0 < |m.stack| <= fuel
    requires forall i :: 0 <= i < |m.stack| ==> Code(m.stack[i]) == ""
    ensures Drain(bp, op, m, true, 1, fuel) == Fine(SkimmedBy(m, |m.stack|))
    decreases |m.stack|
  {
    var w := Skim(m);
    assert InchLoop(bp, op, m, true, 1) == Fine(w);
    if |w.stack| > 0 {
      DrainSkimsCodeless(bp, op, w, fuel - 1);
      assert w.stack[|w.stack|..] == m.stack[|m.stack|..];
    }
  }

  /** A node reached with an empty queue: a save point when history is on or `-h`
      is given, then the node is built (`-i`) or run. */
  function RunFresh(bp: Bashparser, op: Operator, v: ShellValue, node: Node, o: Options, fuel: nat): (d: Done)
    ensures d.v.progNodes == v.progNodes && d.v.index == v.index && d.v.aliases == v.aliases
    ensures d.v.maintainHistory == v.maintainHistory
    ensures |d.v.past| == if v.maintainHistory || o.history then |v.past| + 1 else |v.past|
  {
    var v1 := if v.maintainHistory || o.history then Saved(v, None, Some(bp.render(node))) else v;
    if o.shell then Done(v1, Some(Unmodelled("host shell")))
    else if o.inPlace then
      var o := Engine.Build(bp, node, false, Live(v1));
      Done(WithLive(v1, o.m), o.err)
    else
      var o := RunNode(bp, op, Some(node), Live(v1), fuel);
      Done(WithLive(v1, o.m), o.err)
  }

  /** The middle of a pass: a node reached with an empty queue is run, otherwise
      the pending actions are worked off. */
  function PassBody(bp: Bashparser, op: Operator, v: ShellValue, node: Option<Node>, o: Options, n: nat, fuel: nat): (d: Done)
    requires node.Some? || |Live(v).stack| > 0
    ensures d.v.progNodes == v.progNodes && d.v.index == v.index && d.v.aliases == v.aliases
    ensures d.v.maintainHistory == v.maintainHistory
    ensures |Live(v).stack| > 0 ==> d.v == v.(live := d.v.live)
  {
    if |Live(v).stack| == 0 then RunFresh(bp, op, v, node.value, o, fuel)
    else var r := Drain(bp, op, Live(v), o.shell, n, fuel); Done(WithLive(v, r.m), r.err)
  }

  /** Unless `-i` is given, a pass moves the index on before it runs anything. */
  function Advanced(v: ShellValue, o: Options): (w: ShellValue)
    ensures w.index == if o.inPlace then v.index else v.index + 1
    ensures w == v.(index := w.index)
  {
    if o.inPlace then v else v.(index := v.index + 1)
  }

  /** How a pass ends once its middle is done: an error stops the loop, and so does
      `-p`, whose printing raises `AttributeError`. */
  function Settle(d: Done, o: Options): (t: Turn)
    ensures t.Continue? <==> d.err.None? && !o.show
    ensures t.Continue? ==> t.v == d.v
    ensures t.Finish? ==> t.d.v == d.v && t.d.err.Some? == (d.err.Some? || o.show)
  {
    if d.err.Some? then Finish(d)
    else if o.show then Finish(Done(d.v, Some(AttributeError)))
    else Continue(d.v)
  }

  /** One pass of `do_next`'s loop. */
  function NextPass(bp: Bashparser, op: Operator, v: ShellValue, o: Options, n: nat, fuel: nat): (t: Turn)
    ensures NextNode(v).Err? ==> t == Finish(Done(v, Some(NextNode(v).error)))
    ensures var w := if t.Continue? then t.v else t.d.v;
      w.progNodes == v.progNodes && w.aliases == v.aliases && w.maintainHistory == v.maintainHistory
  {
    match NextNode(v)
    case Err(e) => Finish(Done(v, Some(e)))
    case Ok(node) =>
      if node.None? && |Live(v).stack| == 0 then Finish(Done(v, None))
      else Settle(PassBody(bp, op, Advanced(v, o), node, o, n, fuel), o)
  }

  /** A pass that reaches a node or pending actions runs them and then stops or goes on. */
  lemma NextPassRuns(bp: Bashparser, op: Operator, v: ShellValue, o: Options, n: nat, fuel: nat)
    requires NextNode(v).Ok? && (NextNode(v).value.Some? || |Live(v).stack| > 0)
    ensures NextPass(bp, op, v, o, n, fuel) == Settle(PassBody(bp, op, Advanced(v, o), NextNode(v).value, o, n, fuel), o)
  {
  }

  /** `do_next`'s loop, `left` passes to go. */
  function NextLoop(bp: Bashparser, op: Operator, v: ShellValue, o: Options, n: nat, left: nat, fuel: nat): (d: Done)
    ensures d.v.progNodes == v.progNodes && d.v.aliases == v.aliases && d.v.maintainHistory == v.maintainHistory
    decreases left
  {
    if left == 0 then Done(v, None)
    else
      match NextPass(bp, op, v, o, n, fuel)
      case Finish(d) => d
      case Continue(w) => NextLoop(bp, op, w, o, n, left - 1, fuel)
  }

  lemma NextLoopUnfolds(bp: Bashparser, op: Operator, v: ShellValue, o: Options, n: nat, left: nat, fuel: nat)
    requires left > 0
    ensures NextPass(bp, op, v, o, n, fuel).Finish? ==> NextLoop(bp, op, v, o, n, left, fuel) == NextPass(bp, op, v, o, n, fuel).d
    ensures NextPass(bp, op, v, o, n, fuel).Continue? ==>
              NextLoop(bp, op, v, o, n, left, fuel) == NextLoop(bp, op, NextPass(bp, op, v, o, n, fuel).v, o, n, left - 1, fuel)
  {
  }

  /** `do_next(text)`. */
  function NextCommand(bp: Bashparser, op: Operator, v: ShellValue, text: string, fuel: nat): (d: Done)
    ensures JudoParse.ParseText(text).Err? ==> d == Done(v, Some(JudoParse.ParseText(text).error))
    ensures JudoParse.ParseText(text).Ok? ==>
      var (flags, args) := JudoParse.ParseText(text).value;
      d == NextLoop(bp, op, v, OptionsOf(flags), Count(PlainText(args)), Count(PlainText(args)), fuel)
  {
    match JudoParse.ParseText(text)
    case Err(e) => Done(v, Some(e))
    case Ok((flags, args)) =>
      var n := Count(PlainText(args));
      NextLoop(bp, op, v, OptionsOf(flags), n, n, fuel)
  }

  /** With history on, `next` followed by `undo` is no change at all: the pass moves
      the index on and saves a point before the node runs (whether or not running it
      raises), and undo drops what the node did and steps the index back. */
  lemma NextThenUndo(bp: Bashparser, op: Operator, v: ShellValue, fuel: nat)
    requires v.maintainHistory
    requires |Live(v).stack| == 0 && 0 <= v.index < |v.progNodes|
    ensures Undone(NextLoop(bp, op, v, OptionsOf([]), 1, 1, fuel).v) == v
  {
    var node := v.progNodes[v.index];
    var v1 := v.(index := v.index + 1);
    var w := Saved(v1, None, Some(bp.render(node)));
    var o := RunNode(bp, op, Some(node), Live(w), fuel);
    var opts := OptionsOf([]);
    assert opts == Options(false, false, false, false);
    var d := RunFresh(bp, op, v1, node, opts, fuel);
    assert d.v == WithLive(w, o.m) by {
      assert d == Done(WithLive(w, o.m), o.err);
    }
    assert NextLoop(bp, op, v, opts, 1, 1, fuel).v == d.v by {
      assert NextNode(v) == Ok(Some(node));
      NextPassRuns(bp, op, v, opts, 1, fuel);
      assert PassBody(bp, op, v1, Some(node), opts, 1, fuel) == d;
      NextLoopUnfolds(bp, op, v, opts, 1, 1, fuel);
    }
    UndoDiscardsLive(v1, None, Some(bp.render(node)), o.m);
  }

  /** At the end of the program with an empty queue, `next` does nothing. */
  lemma NextAtEnd(bp: Bashparser, op: Operator, v: ShellValue, o: Options, n: nat, left: nat, fuel: nat)
    requires v.index >= |v.progNodes| && |Live(v).stack| == 0
    ensures NextLoop(bp, op, v, o, n, left, fuel) == Done(v, None)
  {
  }

  /** `next -i` builds the node without moving the index or running anything; with
      history off the pending actions are exactly what building leaves. */
  lemma NextBuildsInPlace(bp: Bashparser, op: Operator, v: ShellValue, fuel: nat)
    requires !v.maintainHistory
    requires |Live(v).stack| == 0 && 0 <= v.index < |v.progNodes|
    ensures var o := Engine.Build(bp, v.progNodes[v.index], false, Live(v));
            o.err.None? ==> NextLoop(bp, op, v, OptionsOf([Flag("i")]), 1, 1, fuel) == Done(WithLive(v, o.m), None)
  {
    assert In(Flag("i"), [Flag("i")]) by {
      assert Equal(Flag("i"), [Flag("i")][0]);
    }
    assert !In(Flag("h"), [Flag("i")]) && !In(Flag("e"), [Flag("i")]) && !In(Flag("p"), [Flag("i")]) by {
      assert !Equal(Flag("h"), [Flag("i")][0]);
      assert !Equal(Flag("e"), [Flag("i")][0]);
      assert !Equal(Flag("p"), [Flag("i")][0]);
    }
    var opts := OptionsOf([Flag("i")]);
    assert opts == Options(true, false, false, false);
    var node := v.progNodes[v.index];
    var o := Engine.Build(bp, node, false, Live(v));
    if o.err.None? {
      assert NextNode(v) == Ok(Some(node));
      assert RunFresh(bp, op, v, node, opts, fuel) == Done(WithLive(v, o.m), None);
      NextPassRuns(bp, op, v, opts, 1, fuel);
      assert NextPass(bp, op, v, opts, 1, fuel) == Continue(WithLive(v, o.m));
      NextLoopUnfolds(bp, op, v, opts, 1, 1, fuel);
    }
  }

  // ---------------------------------------------------------------------------
  // The remaining commands on text

  function VarCommand(v: ShellValue, text: string): (d: Done)
    ensures JudoParse.ParseText(text).Err? ==> d == Done(v, Some(JudoParse.ParseText(text).error))
    ensures JudoParse.ParseText(text).Ok? ==>
      var (flags, args) := JudoParse.ParseText(text).value;
      d == Done(WithLiveState(v, SetVars(Live(v).env.state, args)), None)
  {
    match JudoParse.ParseText(text)
    case Err(e) => Done(v, Some(e))
    case Ok((_, args)) => Done(WithLiveState(v, SetVars(Live(v).env.state, args)), None)
  }

  function FsCommand(v: ShellValue, text: string): (d: Done)
    ensures JudoParse.ParseText(text).Err? ==> d == Done(v, Some(JudoParse.ParseText(text).error))
    ensures JudoParse.ParseText(text).Ok? ==>
      var (flags, args) := JudoParse.ParseText(text).value;
      d == Done(WithLiveState(v, FsGroups(Live(v).env.state, args).0), FsGroups(Live(v).env.state, args).1)
  {
    match JudoParse.ParseText(text)
    case Err(e) => Done(v, Some(e))
    case Ok((_, args)) =>
      var o := FsGroups(Live(v).env.state, args);
      Done(WithLiveState(v, o.0), o.1)
  }

  function TruthCommand(v: ShellValue, text: string): (d: Done)
    ensures JudoParse.ParseText(text).Err? ==> d == Done(v, Some(JudoParse.ParseText(text).error))
    ensures JudoParse.ParseText(text).Ok? ==>
      var (flags, args) := JudoParse.ParseText(text).value;
      d == Done(WithLiveState(v, TruthLoop(Live(v).env.state, Live(v).env.state.truths, args)), None)
  {
    match JudoParse.ParseText(text)
    case Err(e) => Done(v, Some(e))
    case Ok((_, args)) =>
      var s := Live(v).env.state;
      Done(WithLiveState(v, TruthLoop(s, s.truths, args)), None)
  }

  function HistoryCommand(v: ShellValue, text: string): (d: Done)
    ensures JudoParse.ParseText(text).Err? ==> d == Done(v, Some(JudoParse.ParseText(text).error))
    ensures JudoParse.ParseText(text).Ok? ==>
      var (flags, args) := JudoParse.ParseText(text).value;
      d == Done(HistoryWith(v, flags, args), None)
  {
    match JudoParse.ParseText(text)
    case Err(e) => Done(v, Some(e))
    case Ok((flags, args)) => Done(HistoryWith(v, flags, args), None)
  }

  function AliasCommand(v: ShellValue, text: string): (d: Done)
    ensures JudoParse.ParseText(text).Err? ==> d == Done(v, Some(JudoParse.ParseText(text).error))
    ensures JudoParse.ParseText(text).Ok? ==>
      var (flags, args) := JudoParse.ParseText(text).value;
      d == AliasWith(v, flags, args)
  {
    match JudoParse.ParseText(text)
    case Err(e) => Done(v, Some(e))
    case Ok((flags, args)) => AliasWith(v, flags, args)
  }

  function DirCommand(v: ShellValue, text: string): (d: Done)
    ensures JudoParse.ParseText(text).Err? ==> d == Done(v, Some(JudoParse.ParseText(text).error))
    ensures JudoParse.ParseText(text).Ok? ==>
      var (flags, args) := JudoParse.ParseText(text).value;
      d == Done(DirWith(v, args), None)
  {
    match JudoParse.ParseText(text)
    case Err(e) => Done(v, Some(e))
    case Ok((_, args)) => Done(DirWith(v, args), None)
  }

  /** `history on` reads as the single argument `on`, and turns saving on. */
  lemma HistoryOnText(v: ShellValue)
    ensures HistoryCommand(v, "on") == Done(v.(maintainHistory := true), None)
  {
    JudoParse.PlainRoundTrip("on");
    assert Unescape(Arg("on", false)) == "on";
    HistorySwitches(v);
  }

  // ---------------------------------------------------------------------------
  // The shell object

  /** The loop's text after one more piece. */
  lemma SpacedSnoc(ts: seq<string>, i: nat)
    requires i < |ts|
    ensures Spaced(ts[..i + 1]) == Spaced(ts[..i]) + ts[i] + " "
  {
    assert ts[..i + 1] == ts[..i] + [ts[i]];
    SpacedAppend(ts[..i], ts[i]);
  }

  /** `args_to_str(args, unescape)`. */
  method ArgsToStr(args: seq<Leaf>, unescape: bool) returns (r: Result<string>)
    ensures r == ArgsText(args, unescape)
  {
    ghost var ts := Texts(args, unescape);
    var text := "";
    var i := 0;
    while i < |args|
      invariant 0 <= i <= |args|
      invariant unescape ==> forall k :: 0 <= k < i ==> args[k].Arg?
      invariant text == Spaced(ts[..i])
    {
      var t: string;
      if unescape {
        if args[i].Flag? {
          return Err(AttributeError);
        }
        assert forall k :: 0 <= k < i + 1 ==> args[k].Arg?;
        t := Unescape(args[i]);
      } else {
        t := args[i].value;
      }
      SpacedSnoc(ts, i);
      text := text + t + " ";
      i := i + 1;
    }
    assert ts[..i] == ts;
    if |text| > 0 {
      SpacedIsJoinPlusSpace(ts);
      text := text[..|text| - 1];
    }
    r := Ok(text);
  }

  class Shell {
    var parser: JudoParse.Parser
    var progNodes: seq<Node>
    var index: int
    var indexHistory: seq<int>
    var env: Interpreter
    /** Every record but the last; the last one holds `env` under these two texts. */
    var past: seq<Record>
    var liveName: string
    var liveAction: string
    var aliasTable: map<string, string>
    var maintainHistory: bool

    function Value(): ShellValue
      reads this, env, env.state
    {
      ShellValue(progNodes, index, indexHistory, past, JudoRecord.Record(env.Value(), liveName, liveAction),
                 aliasTable, maintainHistory)
    }

    /** `Interpreter(maintain_history)`; the configuration file is read later, by
        the command loop. */
    constructor (maintain: bool)
      ensures Value() == InitialShell(maintain)
    {
      parser := new JudoParse.Parser("");
      progNodes := [];
      index := 0;
      indexHistory := [0];
      env := new Interpreter(FileSocket(0, "", ""), "~", map[], map[], [], map[], Bool(true));
      past := [];
      liveName := "init";
      liveAction := "None";
      aliasTable := map[];
      maintainHistory := maintain;
    }

    method GetNextNode() returns (r: Result<Option<Node>>)
      ensures r == NextNode(Value())
    {
      if index >= |progNodes| {
        return Ok(None);
      }
      if index >= 0 {
        r := Ok(Some(progNodes[index]));
      } else if -|progNodes| <= index {
        r := Ok(Some(progNodes[|progNodes| + index]));
      } else {
        r := Err(IndexError);
      }
    }

    /** `save_state(name, action)`: the live value is frozen in a record and the
        interpreter carries on as the copy the new record holds. */
    method SaveState(name: Option<string>, action: Option<string>)
      modifies this
      ensures env == old(env) && parser == old(parser)
      ensures Value() == Saved(old(Value()), name, action)
    {
      var n := if name.Some? then name.value else NatToString(|past| + 1);
      past := past + [JudoRecord.Record(env.Value(), liveName, liveAction)];
      liveName := n;
      liveAction := JudoRecord.ActionText(action);
      indexHistory := indexHistory + [index];
    }

    /** Puts a whole record into the live position. */
    method Revive(r: Record)
      modifies this, env, env.state
      ensures env == old(env) && env.state == old(env.state) && parser == old(parser)
      ensures past == old(past) && liveName == r.name && liveAction == r.action
      ensures Value() == old(Value()).(live := r)
    {
      env.Load(r.env);
      liveName := r.name;
      liveAction := r.action;
    }

    method Undo(text: string) returns (err: Option<PyError>)
      modifies this, parser, env, env.state
      ensures env == old(env) && parser == old(parser)
      ensures var d := UndoCommand(old(Value()), text); Value() == d.v && err == d.err
    {
      var parsed := parser.Parse(text);
      if parsed.Err? {
        return Some(parsed.error);
      }
      if |past| > 0 {
        var last := past[|past| - 1];
        past := past[..|past| - 1];
        Revive(last);
        indexHistory := if |indexHistory| > 0 then indexHistory[..|indexHistory| - 1] else [];
        index := index - 1;
        DropLast(old(indexHistory));
      } else {
        Revive(InitRecord());
        index := 0;
        indexHistory := [0];
      }
      err := None;
    }

    method Skip(text: string)
      modifies this
      ensures Value() == Skipped(old(Value()), text)
    {
      var n := if IsDigits(text) then DigitsValue(text) else 1;
      var i := 0;
      while i < n
        invariant 0 <= i <= n
        invariant Value() == old(Value()).(index := old(index) + i)
      {
        index := index + 1;
        i := i + 1;
      }
    }

    method Save(name: string)
      modifies this
      ensures Value() == SavePoint(old(Value()), name)
    {
      if |name| == 0 {
        return;
      }
      SaveState(Some(name), Some("User Save"));
    }

    /** One pass of `do_inch`'s loop: a single step of the interpreter. */
    method InchPass(bp: Bashparser, op: Operator, k: nat) returns (err: Option<PyError>)
      requires k > 0
      modifies env, env.state
      ensures env.state == old(env.state)
      ensures err.Some? ==> InchTimes(bp, op, old(env.Value()), k) == Outcome(env.Value(), err)
      ensures err.None? ==> InchTimes(bp, op, old(env.Value()), k) == InchTimes(bp, op, env.Value(), k - 1)
    {
      var progressed;
      progressed, err := env.Inch(bp, op);
    }

    /** `do_inch`'s loop without `-e`, `n` times. */
    method InchRun(bp: Bashparser, op: Operator, n: nat) returns (err: Option<PyError>)
      modifies env, env.state
      ensures env.state == old(env.state)
      ensures var o := InchTimes(bp, op, old(env.Value()), n); env.Value() == o.m && err == o.err
    {
      ghost var goal := InchTimes(bp, op, env.Value(), n);
      var i := 0;
      while i < n
        invariant i <= n
        invariant env.state == old(env.state)
        invariant InchTimes(bp, op, env.Value(), n - i) == goal
      {
        err := InchPass(bp, op, n - i);
        if err.Some? {
          return;
        }
        i := i + 1;
      }
      err := None;
    }

    /** One pass of `do_inch`'s loop with `-e`: the front entry's code goes to the
        host shell, which stops the model; an entry without code is dropped and IN
        emptied. */
    method ShellPass(k: nat) returns (err: Option<PyError>)
      requires k > 0
      modifies env, env.state
      ensures env.state == old(env.state)
      ensures err.Some? ==> ShellTimes(old(env.Value()), k) == Outcome(env.Value(), err)
      ensures err.None? ==> ShellTimes(old(env.Value()), k) == ShellTimes(env.Value(), k - 1)
    {
      if |env.actionStack| == 0 {
        return Some(IndexError);
      }
      if Code(env.actionStack[0]) != "" {
        return Some(Unmodelled("host shell"));
      }
      env.actionStack := env.actionStack[1..];
      var current := env.Stdin(Some(""));
      err := None;
    }

    /** `do_inch`'s loop with `-e`, `n` times. */
    method ShellRun(n: nat) returns (err: Option<PyError>)
      modifies env, env.state
      ensures env.state == old(env.state)
      ensures var o := ShellTimes(old(env.Value()), n); env.Value() == o.m && err == o.err
    {
      ghost var goal := ShellTimes(env.Value(), n);
      var left := n;
      while left > 0
        invariant env.state == old(env.state)
        invariant ShellTimes(env.Value(), left) == goal
      {
        var e := ShellPass(left);
        if e.Some? {
          return e;
        }
        left := left - 1;
      }
      err := None;
    }

    /** `do_inch`'s loop, with or without `-e`. */
    method InchLoopRun(bp: Bashparser, op: Operator, shell: bool, n: nat) returns (err: Option<PyError>)
      modifies env, env.state
      ensures env.state == old(env.state)
      ensures var o := InchLoop(bp, op, old(env.Value()), shell, n); env.Value() == o.m && err == o.err
    {
      if shell {
        err := ShellRun(n);
      } else {
        err := InchRun(bp, op, n);
      }
    }

    method Inch(bp: Bashparser, op: Operator, text: string) returns (err: Option<PyError>)
      modifies parser, env, env.state
      ensures var d := InchCommand(bp, op, old(Value()), text); Value() == d.v && err == d.err
    {
      if |env.actionStack| == 0 {
        return None;
      }
      var parsed := parser.Parse(text);
      if parsed.Err? {
        return Some(parsed.error);
      }
      var flags, args := parsed.value.0, parsed.value.1;
      var count := ArgsToStr(args, false);
      var n := Count(count.value);
      err := InchLoopRun(bp, op, In(Flag("e"), flags), n);
    }

    /** `next`'s loop over pending actions. */
    method DrainRun(bp: Bashparser, op: Operator, shell: bool, n: nat, fuel: nat) returns (err: Option<PyError>)
      modifies env, env.state
      ensures env.state == old(env.state)
      ensures var o := Drain(bp, op, old(env.Value()), shell, n, fuel); env.Value() == o.m && err == o.err
    {
      ghost var goal := Drain(bp, op, env.Value(), shell, n, fuel);
      var left := fuel;
      while |env.actionStack| > 0 && left > 0
        invariant env.state == old(env.state)
        invariant Drain(bp, op, env.Value(), shell, n, left) == goal
        decreases left
      {
        var e := InchLoopRun(bp, op, shell, n);
        left := left - 1;
        if e.Some? {
          return e;
        }
      }
      err := None;
    }

    /** A node reached with an empty queue. */
    method RunFreshStep(bp: Bashparser, op: Operator, node: Node, o: Options, fuel: nat) returns (err: Option<PyError>)
      modifies this, env, env.state
      ensures env == old(env) && env.state == old(env.state) && parser == old(parser)
      ensures var d := RunFresh(bp, op, old(Value()), node, o, fuel); Value() == d.v && err == d.err
    {
      if maintainHistory || o.history {
        SaveState(None, Some(bp.render(node)));
      }
      if o.shell {
        return Some(Unmodelled("host shell"));
      }
      if o.inPlace {
        err := BuildLive(bp, node);
      } else {
        err := RunLive(bp, op, node, fuel);
      }
    }

    /** `build` on the live interpreter. */
    method BuildLive(bp: Bashparser, node: Node) returns (err: Option<PyError>)
      modifies env, env.state
      ensures env.state == old(env.state)
      ensures var o := Engine.Build(bp, node, false, Live(old(Value()))); Value() == WithLive(old(Value()), o.m) && err == o.err
    {
      err := env.Build(bp, node, false);
    }

    /** `run(node)` on the live interpreter. */
    method RunLive(bp: Bashparser, op: Operator, node: Node, fuel: nat) returns (err: Option<PyError>)
      modifies env, env.state
      ensures env.state == old(env.state)
      ensures var o := RunNode(bp, op, Some(node), Live(old(Value())), fuel); Value() == WithLive(old(Value()), o.m) && err == o.err
    {
      err := env.Run(bp, op, Some(node), fuel);
    }

    /** The middle of a pass. */
    method PassBodyStep(bp: Bashparser, op: Operator, node: Option<Node>, o: Options, n: nat, fuel: nat) returns (err: Option<PyError>)
      requires node.Some? || |env.actionStack| > 0
      modifies this, env, env.state
      ensures env == old(env) && env.state == old(env.state) && parser == old(parser)
      ensures var d := PassBody(bp, op, old(Value()), node, o, n, fuel); Value() == d.v && err == d.err
    {
      if |env.actionStack| == 0 {
        err := RunFreshStep(bp, op, node.value, o, fuel);
      } else {
        err := DrainRun(bp, op, o.shell, n, fuel);
      }
    }

    /** The rest of a pass once a node or pending actions are there to run. */
    method RunPass(bp: Bashparser, op: Operator, node: Option<Node>, o: Options, n: nat, fuel: nat)
      returns (stop: bool, err: Option<PyError>)
      requires NextNode(Value()) == Ok(node) && (node.Some? || |env.actionStack| > 0)
      modifies this, env, env.state
      ensures env == old(env) && env.state == old(env.state) && parser == old(parser)
      ensures match NextPass(bp, op, old(Value()), o, n, fuel)
              case Finish(d) => stop && Value() == d.v && err == d.err
              case Continue(w) => !stop && Value() == w && err.None?
    {
      NextPassRuns(bp, op, Value(), o, n, fuel);
      Advance(o);
      err := PassBodyStep(bp, op, node, o, n, fuel);
      stop := err.Some? || o.show;
      if err.None? && o.show {
        err := Some(AttributeError);
      }
    }

    /** The index moves on unless the pass runs in place. */
    method Advance(o: Options)
      modifies this
      ensures env == old(env) && parser == old(parser)
      ensures Value() == Advanced(old(Value()), o)
    {
      if !o.inPlace {
        index := index + 1;
      }
    }

    /** One pass of `do_next`'s loop; `stop` ends the command. */
    method NextStep(bp: Bashparser, op: Operator, o: Options, n: nat, fuel: nat) returns (stop: bool, err: Option<PyError>)
      modifies this, env, env.state
      ensures env == old(env) && env.state == old(env.state) && parser == old(parser)
      ensures match NextPass(bp, op, old(Value()), o, n, fuel)
              case Finish(d) => stop && Value() == d.v && err == d.err
              case Continue(w) => !stop && Value() == w && err.None?
    {
      var node := GetNextNode();
      if node.Err? {
        return true, Some(node.error);
      }
      if node.value.None? && |env.actionStack| == 0 {
        return true, None;
      }
      stop, err := RunPass(bp, op, node.value, o, n, fuel);
    }

    /** `do_next`'s loop: `n` passes at most. */
    method NextRun(bp: Bashparser, op: Operator, o: Options, n: nat, fuel: nat) returns (err: Option<PyError>)
      modifies this, env, env.state
      ensures env == old(env) && env.state == old(env.state) && parser == old(parser)
      ensures var d := NextLoop(bp, op, old(Value()), o, n, n, fuel); Value() == d.v && err == d.err
    {
      ghost var goal := NextLoop(bp, op, Value(), o, n, n, fuel);
      var left := n;
      while left > 0
        invariant env == old(env) && env.state == old(env.state) && parser == old(parser)
        invariant NextLoop(bp, op, Value(), o, n, left, fuel) == goal
      {
        ghost var pass := NextPass(bp, op, Value(), o, n, fuel);
        NextLoopUnfolds(bp, op, Value(), o, n, left, fuel);
        var stop, e := NextStep(bp, op, o, n, fuel);
        if stop {
          assert pass.Finish? && Value() == pass.d.v && e == pass.d.err;
          return e;
        }
        assert pass.Continue? && Value() == pass.v;
        left := left - 1;
      }
      err := None;
    }

    method Next(bp: Bashparser, op: Operator, text: string, fuel: nat) returns (err: Option<PyError>)
      modifies this, parser, env, env.state
      ensures env == old(env) && env.state == old(env.state) && parser == old(parser)
      ensures var d := NextCommand(bp, op, old(Value()), text, fuel); Value() == d.v && err == d.err
    {
      var parsed := parser.Parse(text);
      if parsed.Err? {
        return Some(parsed.error);
      }
      var flags, args := parsed.value.0, parsed.value.1;
      var count := ArgsToStr(args, false);
      err := NextRun(bp, op, OptionsOf(flags), Count(count.value), fuel);
    }

    method Var(text: string) returns (err: Option<PyError>)
      modifies parser, env.state
      ensures var d := VarCommand(old(Value()), text); Value() == d.v && err == d.err
    {
      var parsed := parser.Parse(text);
      if parsed.Err? {
        return Some(parsed.error);
      }
      var args := parsed.value.1;
      while |args| >= 3 && Equal(args[1], Colon)
        invariant env.Value() == WithState(old(env.Value()), env.state.Value())
        invariant SetVars(env.state.Value(), args) == SetVars(old(env.state.Value()), parsed.value.1)
        decreases |args|
      {
        env.SetVariable(args[0].value, Scalar(args[2].value));
        args := args[3..];
      }
      err := None;
    }

    method Fs(text: string) returns (err: Option<PyError>)
      modifies parser, env.state
      ensures var d := FsCommand(old(Value()), text); Value() == d.v && err == d.err
    {
      var parsed := parser.Parse(text);
      if parsed.Err? {
        return Some(parsed.error);
      }
      var rest := parsed.value.1;
      while |rest| > 0
        invariant env.Value() == WithState(old(env.Value()), env.state.Value())
        invariant FsGroups(env.state.Value(), rest) == FsGroups(old(env.state.Value()), parsed.value.1)
        decreases |rest|
      {
        var name := rest[0].value;
        if |rest| == 1 {
          return Some(IndexError);
        }
        if !Equal(rest[1], Colon) || |rest| == 2 {
          return None;
        }
        var contents := rest[2].value;
        var more := rest[3..];
        var perms := DefaultPermissions;
        if |more| >= 2 && Equal(more[0], Colon) {
          perms := more[1].value;
          more := more[2..];
        }
        var e := env.UpdateFileSystem(name, contents, perms, None);
        if e.Some? {
          return e;
        }
        rest := more;
      }
      err := None;
    }

    method Truth(text: string) returns (err: Option<PyError>)
      modifies parser, env.state
      ensures var d := TruthCommand(old(Value()), text); Value() == d.v && err == d.err
    {
      var parsed := parser.Parse(text);
      if parsed.Err? {
        return Some(parsed.error);
      }
      var oldTruths := env.state.truths;
      var args := parsed.value.1;
      while |args| > 0
        invariant env.Value() == WithState(old(env.Value()), env.state.Value())
        invariant TruthLoop(env.state.Value(), oldTruths, args) == TruthLoop(old(env.state.Value()), oldTruths, parsed.value.1)
        decreases |args|
      {
        if |args| < 3 || !Equal(args[1], Colon) {
          env.state.truths := oldTruths;
          return None;
        }
        env.SetTruth(args[0].value, Str(args[2].value));
        args := args[3..];
      }
      err := None;
    }

    method History(text: string) returns (err: Option<PyError>)
      modifies this, parser, env, env.state
      ensures env == old(env) && parser == old(parser)
      ensures var d := HistoryCommand(old(Value()), text); Value() == d.v && err == d.err
    {
      var parsed := parser.Parse(text);
      if parsed.Err? {
        return Some(parsed.error);
      }
      var flags, args := parsed.value.0, parsed.value.1;
      if In(Flag("r"), flags) {
        past := [];
        Revive(InitRecord());
      }
      if In(Arg("on", false), args) {
        maintainHistory := true;
      }
      if In(Arg("off", false), args) {
        maintainHistory := false;
      }
      if In(Arg("toggle", false), args) {
        maintainHistory := !maintainHistory;
      }
      err := None;
    }

    method Alias(text: string) returns (err: Option<PyError>)
      modifies this, parser
      ensures parser == old(parser)
      ensures var d := AliasCommand(old(Value()), text); Value() == d.v && err == d.err
    {
      var parsed := parser.Parse(text);
      if parsed.Err? {
        return Some(parsed.error);
      }
      var flags, args := parsed.value.0, parsed.value.1;
      if In(Flag("p"), flags) {
        var k := 0;
        while k < |args|
          invariant 0 <= k <= |args|
          invariant forall j :: 0 <= j < k ==> args[j].value in aliasTable
        {
          if args[k].value !in aliasTable {
            return Some(KeyError);
          }
          k := k + 1;
        }
        return None;
      } else if In(Flag("a"), flags) {
        return None;
      }
      if |args| == 0 {
        return Some(IndexError);
      }
      var aliasText := ArgsToStr(args[1..], false);
      aliasTable := aliasTable[args[0].value := aliasText.value];
      err := None;
    }

    method Dir(text: string) returns (err: Option<PyError>)
      modifies parser, env.state
      ensures var d := DirCommand(old(Value()), text); Value() == d.v && err == d.err
    {
      var parsed := parser.Parse(text);
      if parsed.Err? {
        return Some(parsed.error);
      }
      var args := parsed.value.1;
      if |args| == 1 {
        var current := env.WorkingDir(Some(args[0].value));
      }
      err := None;
    }
  }
}
