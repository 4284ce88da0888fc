/**
 * The built-in commands of `Interpreter` (its `f_` methods): echo, cd, wget,
 * chmod, rm, mv, cp, unset, shift, bash and the empty command. Each one takes
 * the command node after variable substitution and changes the state; an
 * exception stops it where it was raised, so the result is the state reached
 * so far together with the error, if any.
 */
module Builtins {
  import opened Wrappers
  import opened PyStr
  import opened FileSystem
  import opened BashAst
  import opened Primitives

  /** The names `Interpreter` exposes through its `f_` methods. */
  const Bin: set<string> := {"echo", "cd", "wget", "chmod", "rm", "mv", "cp", "unset", "shift", "bash", ""}

  /** The state a built-in leaves and the exception it raised, if any. */
  datatype Effect = Effect(state: StateValue, err: Option<PyError>)

  function Done(s: StateValue): Effect { Effect(s, None) }

  function Raise(s: StateValue, e: PyError): Effect { Effect(s, Some(e)) }

  /** `node.word`; `None` is the AttributeError of a node that has no word. */
  function WordOf(n: Node): (r: Result<string>)
    ensures r.Ok? <==> n.word.Some?
    ensures r.Ok? ==> r.value == n.word.value
  {
    if n.word.Some? then Ok(n.word.value) else Err(AttributeError)
  }

  /** `parse_node`: the arguments are every part after the command word. */
  function ArgsOf(node: Node): (r: Result<seq<Node>>)
    ensures r.Ok? <==> |node.parts| > 0
    ensures r.Ok? ==> [node.parts[0]] + r.value == node.parts
  {
    if |node.parts| == 0 then Err(IndexError) else Ok(node.parts[1..])
  }

  /** The words `echo` prints: those of the leading arguments of kind "word". */
  function EchoWords(args: seq<Node>): (r: Result<seq<string>>)
    ensures r.Ok? ==> |r.value| <= |args|
    ensures r.Ok? ==> forall k :: 0 <= k < |r.value| ==> args[k].kind == "word" && args[k].word == Some(r.value[k])
    ensures r.Ok? ==> |r.value| == |args| || args[|r.value|].kind != "word"
    decreases |args|
  {
    if |args| == 0 || args[0].kind != "word" then Ok([])
    else if args[0].word.None? then Err(AttributeError)
    else
      var rest := EchoWords(args[1..]);
      if rest.Err? then rest else Ok([args[0].word.value] + rest.value)
  }

  /** The text `echo` writes: the words joined by single spaces, with no trailing
      space, and nothing at all for no words. */
  function EchoText(args: seq<Node>): (r: Result<string>)
    ensures r.Ok? <==> EchoWords(args).Ok?
    ensures r.Ok? ==> r.value == Join(EchoWords(args).value, " ")
  {
    var ws := EchoWords(args);
    if ws.Err? then Err(ws.error) else Ok(Join(ws.value, " "))
  }

  /** `ws` put in front of the words of `r`, or the error of `r`. */
  function Prefixed(ws: seq<string>, r: Result<seq<string>>): Result<seq<string>> {
    if r.Err? then r else Ok(ws + r.value)
  }

  lemma EchoStep(args: seq<Node>, i: nat)
    requires i < |args| && args[i].kind == "word"
    ensures args[i].word.None? ==> EchoWords(args[i..]) == Err(AttributeError)
    ensures args[i].word.Some? ==> EchoWords(args[i..]) == Prefixed([args[i].word.value], EchoWords(args[i + 1..]))
  {
    assert args[i..][0] == args[i] && args[i..][1..] == args[i + 1..];
  }

  lemma PrefixedTwice(ws: seq<string>, w: string, r: Result<seq<string>>)
    ensures Prefixed(ws, Prefixed([w], r)) == Prefixed(ws + [w], r)
  {
    if r.Ok? {
      assert ws + ([w] + r.value) == (ws + [w]) + r.value;
    }
  }

  /** The loop of `f_echo`: append each leading word and a space, stop at the first
      argument that is not a word, then drop the last character. */
  method EchoLoop(args: seq<Node>) returns (r: Result<string>)
    ensures r == EchoText(args)
  {
    var text := "";
    var i := 0;
    ghost var words: seq<string> := [];
    assert args[0..] == args;
    assert EchoWords(args).Ok? ==> [] + EchoWords(args).value == EchoWords(args).value;
    while i < |args| && args[i].kind == "word"
      invariant 0 <= i <= |args|
      invariant EchoWords(args) == Prefixed(words, EchoWords(args[i..]))
      invariant text == Spaced(words)
      decreases |args| - i
    {
      EchoStep(args, i);
      if args[i].word.None? {
        return Err(AttributeError);
      }
      var w := args[i].word.value;
      PrefixedTwice(words, w, EchoWords(args[i + 1..]));
      SpacedAppend(words, w);
      text := text + w + " ";
      words := words + [w];
      i := i + 1;
    }
    assert EchoWords(args[i..]) == Ok([]);
    assert words + [] == words;
    if |words| > 0 {
      SpacedIsJoinPlusSpace(words);
    }
    r := Ok(text[..if |text| == 0 then 0 else |text| - 1]);
  }

  /** `f_echo`: the text goes to OUT. */
  function Echo(s: StateValue, node: Node): (e: Effect)
    ensures e.err.None? <==> ArgsOf(node).Ok? && EchoText(ArgsOf(node).value).Ok?
    ensures e.err.None? ==> e.state == s.(stdio := s.stdio.Write(EchoText(ArgsOf(node).value).value))
    ensures e.err.Some? ==> e.state == s
  {
    var args := ArgsOf(node);
    if args.Err? then Raise(s, args.error)
    else
      var t := EchoText(args.value);
      if t.Err? then Raise(s, t.error) else Done(s.(stdio := s.stdio.Write(t.value)))
  }

  /** `f_cd`: only a single argument changes the directory; otherwise the source
      prints a complaint and nothing changes. */
  function Cd(s: StateValue, node: Node): (e: Effect)
    ensures ArgsOf(node).Ok? && |ArgsOf(node).value| != 1 ==> e == Done(s)
    ensures ArgsOf(node).Ok? && |ArgsOf(node).value| == 1 && node.parts[1].word.Some? ==>
      e == Done(s.(workingDir := node.parts[1].word.value))
  {
    var args := ArgsOf(node);
    if args.Err? then Raise(s, args.error)
    else if |args.value| != 1 then Done(s)
    else
      var w := WordOf(args.value[0]);
      if w.Err? then Raise(s, w.error) else Done(s.(workingDir := w.value))
  }

  /** `f_wget`: a valid URL (the operator's `wget` answers `Some(page)`) stores the
      page as "index.html"; an invalid one is only reported. */
  function Wget(s: StateValue, op: Operator, node: Node): (e: Effect)
    ensures ArgsOf(node).Ok? && |node.parts| > 1 && node.parts[1].word.Some? && op.wget(node.parts[1].word.value).Some? ==>
      e == Done(s.UpdateFileSystem("index.html", op.wget(node.parts[1].word.value).value, DefaultPermissions, None).value)
    ensures ArgsOf(node).Ok? && |node.parts| > 1 && node.parts[1].word.Some? && op.wget(node.parts[1].word.value).None? ==>
      e == Done(s)
  {
    var args := ArgsOf(node);
    if args.Err? then Raise(s, args.error)
    else if |args.value| == 0 then Raise(s, IndexError)
    else
      var url := WordOf(args.value[0]);
      if url.Err? then Raise(s, url.error)
      else
        var page := op.wget(url.value);
        if page.None? then Done(s)
        else Done(s.UpdateFileSystem("index.html", page.value, DefaultPermissions, None).value)
  }

  /** `chmod +x`: characters 2, 5 and 8 of the permission string become 'x'. */
  function AddExecute(p: string): (q: string)
    requires |p| >= 9
    ensures |q| == |p| && q[2] == 'x' && q[5] == 'x' && q[8] == 'x'
    ensures forall k :: 0 <= k < |p| && k != 2 && k != 5 && k != 8 ==> q[k] == p[k]
  {
    p[2 := 'x'][5 := 'x'][8 := 'x']
  }

  /** `f_chmod`: only "+x" is understood. Its target is the working directory, '/'
      and the name; a missing target is first created with no contents, the default
      permissions and the bare name. A permission string shorter than nine
      characters is the IndexError of the character list. */
  function Chmod(s: StateValue, node: Node): (e: Effect)
    ensures e.err.None? && |node.parts| > 2 && node.parts[1].word == Some("+x") && node.parts[2].word.Some? ==>
      var location := s.workingDir + "/" + node.parts[2].word.value;
      var p := if location in s.fs then s.fs[location].permissions else DefaultPermissions;
      location in e.state.fs && |p| >= 9
      && e.state.fs[location].permissions == AddExecute(p)
      && e.state.fs[location].contents == (if location in s.fs then s.fs[location].contents else None)
      && e.state == s.(fs := e.state.fs)
      && forall k :: k in s.fs && k != location ==> k in e.state.fs && e.state.fs[k] == s.fs[k]
    ensures e.err.None? && |node.parts| > 1 && node.parts[1].word.Some? && node.parts[1].word.value != "+x" ==> e.state == s
  {
    var args := ArgsOf(node);
    if args.Err? then Raise(s, args.error)
    else if |args.value| == 0 then Raise(s, IndexError)
    else
      var mode := WordOf(args.value[0]);
      if mode.Err? then Raise(s, mode.error)
      else if mode.value != "+x" then Done(s)
      else if |args.value| < 2 then Raise(s, IndexError)
      else
        var name := WordOf(args.value[1]);
        if name.Err? then Raise(s, name.error)
        else
          var location := s.workingDir + "/" + name.value;
          var fs1 := if location in s.fs then s.fs else s.fs[location := File(name.value, None, DefaultPermissions)];
          var perms := fs1[location].permissions;
          if |perms| < 9 then Raise(s.(fs := fs1), IndexError)
          else Done(s.(fs := fs1[location := fs1[location].SetPermissions(AddExecute(perms))]))
  }

  /** How `f_rm` splits its arguments, in order: a word starting with '-' is a flag,
      anything else a document; an empty word is the IndexError of `word[0]`. */
  function SplitFlags(args: seq<Node>): (r: Result<(seq<Node>, seq<Node>)>)
    ensures r.Ok? <==> forall k :: 0 <= k < |args| ==> args[k].word.Some? && |args[k].word.value| > 0
    ensures r.Ok? ==> |r.value.0| + |r.value.1| == |args|
    ensures r.Ok? ==> forall k :: 0 <= k < |r.value.0| ==> r.value.0[k].word.Some? && |r.value.0[k].word.value| > 0 && r.value.0[k].word.value[0] == '-'
    ensures r.Ok? ==> forall k :: 0 <= k < |r.value.1| ==> r.value.1[k].word.Some? && |r.value.1[k].word.value| > 0 && r.value.1[k].word.value[0] != '-'
    decreases |args|
  {
    if |args| == 0 then Ok(([], []))
    else
      var rest := SplitFlags(args[..|args| - 1]);
      var a := args[|args| - 1];
      if rest.Err? then rest
      else if a.word.None? then Err(AttributeError)
      else if |a.word.value| == 0 then Err(IndexError)
      else if a.word.value[0] == '-' then Ok((rest.value.0 + [a], rest.value.1))
      else Ok((rest.value.0, rest.value.1 + [a]))
  }

  /** An argument `f_rm` reads as a flag: a word starting with '-'. */
  predicate IsFlagArg(a: Node) {
    a.word.Some? && |a.word.value| > 0 && a.word.value[0] == '-'
  }

  /** The arguments whose flag-ness is `flag`, in their order: a filter written
      front to back, independently of the loop's snoc order. */
  function Select(args: seq<Node>, flag: bool): seq<Node>
    decreases |args|
  {
    if |args| == 0 then []
    else (if IsFlagArg(args[0]) == flag then [args[0]] else []) + Select(args[1..], flag)
  }

  /** Filtering an argument list with one more argument at its end. */
  lemma {:induction false} SelectSnoc(args: seq<Node>, a: Node, flag: bool)
    ensures Select(args + [a], flag) == Select(args, flag) + (if IsFlagArg(a) == flag then [a] else [])
    decreases |args|
  {
    if |args| == 0 {
      assert args + [a] == [a];
      assert [a][1..] == [];
    } else {
      assert (args + [a])[0] == args[0];
      assert (args + [a])[1..] == args[1..] + [a];
      SelectSnoc(args[1..], a, flag);
    }
  }

  /** A successful split is the pair of order-preserving filters: the flags and the
      documents each keep the relative order they had on the command line. */
  lemma {:induction false} SplitFlagsIsSelect(args: seq<Node>)
    requires SplitFlags(args).Ok?
    ensures SplitFlags(args).value == (Select(args, true), Select(args, false))
    decreases |args|
  {
    if |args| > 0 {
      var init := args[..|args| - 1];
      var a := args[|args| - 1];
      assert init + [a] == args;
      var rest := SplitFlags(init);
      assert rest.Ok?;
      SplitFlagsIsSelect(init);
      SelectSnoc(init, a, true);
      SelectSnoc(init, a, false);
      if IsFlagArg(a) {
        assert SplitFlags(args).value == (rest.value.0 + [a], rest.value.1);
        assert Select(args, true) == Select(init, true) + [a];
        assert Select(args, false) == Select(init, false);
      } else {
        assert SplitFlags(args).value == (rest.value.0, rest.value.1 + [a]);
        assert Select(args, true) == Select(init, true);
        assert Select(args, false) == Select(init, false) + [a];
      }
    }
  }

  /** Filtering keeps nothing from a list where no argument has the wanted kind. */
  lemma {:induction false} SelectNone(args: seq<Node>, flag: bool)
    requires forall k :: 0 <= k < |args| ==> IsFlagArg(args[k]) != flag
    ensures Select(args, flag) == []
    decreases |args|
  {
    if |args| > 0 {
      SelectNone(args[1..], flag);
    }
  }

  /** The first document is the first argument that is not a flag. */
  lemma {:induction false} SelectFirstDocument(args: seq<Node>, j: nat)
    requires j < |args| && !IsFlagArg(args[j])
    requires forall k :: 0 <= k < j ==> IsFlagArg(args[k])
    ensures |Select(args, false)| > 0 && Select(args, false)[0] == args[j]
    decreases j
  {
    if j > 0 {
      SelectFirstDocument(args[1..], j - 1);
    }
  }

  /** `f_rm` acts on its first document: after any number of leading flags, the
      first word that does not start with '-' is `documents[0]`. */
  lemma SplitFlagsFirstDocument(args: seq<Node>, j: nat)
    requires SplitFlags(args).Ok? && j < |args| && args[j].word.value[0] != '-'
    requires forall k :: 0 <= k < j ==> args[k].word.value[0] == '-'
    ensures |SplitFlags(args).value.1| > 0 && SplitFlags(args).value.1[0] == args[j]
  {
    SplitFlagsIsSelect(args);
    SelectFirstDocument(args, j);
  }

  /** A command line made only of flags leaves `f_rm` no document: every argument
      is a flag, in order. */
  lemma SplitFlagsAllFlags(args: seq<Node>)
    requires SplitFlags(args).Ok?
    requires forall k :: 0 <= k < |args| ==> args[k].word.value[0] == '-'
    ensures SplitFlags(args).value == (args, [])
  {
    SplitFlagsIsSelect(args);
    SelectNone(args, false);
    SelectAll(args);
  }

  /** Filtering for flags keeps the whole of a list made only of flags. */
  lemma {:induction false} SelectAll(args: seq<Node>)
    requires forall k :: 0 <= k < |args| ==> IsFlagArg(args[k])
    ensures Select(args, true) == args
    decreases |args|
  {
    if |args| > 0 {
      SelectAll(args[1..]);
      assert [args[0]] + args[1..] == args;
    }
  }

  /** An argument that stops the split stops it for every longer argument list. */
  lemma {:induction false} SplitFlagsErrorStays(args: seq<Node>, j: nat)
    requires j <= |args| && SplitFlags(args[..j]).Err?
    ensures SplitFlags(args) == SplitFlags(args[..j])
    decreases |args| - j
  {
    if j < |args| {
      assert args[..j + 1][..j] == args[..j];
      SplitFlagsErrorStays(args, j + 1);
    } else {
      assert args[..j] == args;
    }
  }

  /** The loop of `f_rm` that sorts the arguments into flags and documents. */
  method PartitionArgs(args: seq<Node>) returns (r: Result<(seq<Node>, seq<Node>)>)
    ensures r == SplitFlags(args)
  {
    var flags: seq<Node> := [];
    var documents: seq<Node> := [];
    var i := 0;
    while i < |args|
      invariant 0 <= i <= |args|
      invariant SplitFlags(args[..i]) == Ok((flags, documents))
    {
      assert args[..i + 1][..i] == args[..i];
      var a := args[i];
      if a.word.None? {
        SplitFlagsErrorStays(args, i + 1);
        return Err(AttributeError);
      }
      if |a.word.value| == 0 {
        SplitFlagsErrorStays(args, i + 1);
        return Err(IndexError);
      }
      if a.word.value[0] == '-' {
        flags := flags + [a];
      } else {
        documents := documents + [a];
      }
      i := i + 1;
    }
    assert args[..i] == args;
    r := Ok((flags, documents));
  }

  /** `f_rm` as written: a first document "/" empties the file system; a document
      found either as it is or under the working directory passes the guard, but
      the entry removed is always the bare name, so a document that exists only
      under the working directory raises KeyError. */
  function RmAsWritten(s: StateValue, node: Node): (e: Effect)
    ensures e.err.None? ==> e == Rm(s, node)
    ensures e.err.Some? ==> e.state == s
    ensures e.err != Rm(s, node).err ==> e.err == Some(KeyError)
  {
    var args := ArgsOf(node);
    if args.Err? then Raise(s, args.error)
    else
      var split := SplitFlags(args.value);
      if split.Err? then Raise(s, split.error)
      else if |split.value.1| == 0 then Raise(s, IndexError)
      else
        var doc := split.value.1[0].word.value;
        if doc == "/" then Done(s.(fs := map[]))
        else if doc in s.fs || s.workingDir + "/" + doc in s.fs then
          (if doc in s.fs then Done(s.(fs := s.fs - {doc})) else Raise(s, KeyError))
        else Done(s)
  }

  /** The input that shows the mismatch: "rm a" in "~" with only "~/a" stored. */
  lemma RmAsWrittenMissesPrefixedName()
    ensures var s := DefaultState().(fs := map["~/a" := File("~/a", Some(""), DefaultPermissions)]);
      var a := Node("word", Some("a"), [], (3, 4), None, [], [], None);
      var rm := Node("word", Some("rm"), [], (0, 2), None, [], [], None);
      var e := RmAsWritten(s, Node("command", None, [rm, a], (0, 4), None, [], [], None));
      e.err == Some(KeyError) && "~/a" in e.state.fs
  {
    var a := Node("word", Some("a"), [], (3, 4), None, [], [], None);
    assert [a][..0] == [] && [a][0] == a;
    assert SplitFlags([]) == Ok(([], []));
    assert "a"[0] == 'a';
    assert SplitFlags([a]) == Ok(([], [] + [a]));
    assert "~" + "/" + "a" == "~/a";
  }

  /** `f_rm` as its guard intends: the entry the guard found is the one removed. */
  function Rm(s: StateValue, node: Node): (e: Effect)
    ensures e.err.None? <==> ArgsOf(node).Ok? && SplitFlags(ArgsOf(node).value).Ok? && |SplitFlags(ArgsOf(node).value).value.1| > 0
    ensures e.err.Some? ==> e.state == s
  {
    var args := ArgsOf(node);
    if args.Err? then Raise(s, args.error)
    else
      var split := SplitFlags(args.value);
      if split.Err? then Raise(s, split.error)
      else if |split.value.1| == 0 then Raise(s, IndexError)
      else
        var doc := split.value.1[0].word.value;
        if doc == "/" then Done(s.(fs := map[]))
        else if doc in s.fs then Done(s.(fs := s.fs - {doc}))
        else if s.workingDir + "/" + doc in s.fs then Done(s.(fs := s.fs - {s.workingDir + "/" + doc}))
        else Done(s)
  }

  /** What `rm` removes: everything for "/", otherwise only the entry the first
      document names (as it is, or else under the working directory), and nothing
      when neither exists. Flags and later documents are ignored. */
  lemma RmRemovesFirstDocument(s: StateValue, node: Node)
    requires Rm(s, node).err.None?
    ensures var doc := SplitFlags(node.parts[1..]).value.1[0].word.value;
      var t := Rm(s, node).state;
      var key := if doc in s.fs then doc else s.workingDir + "/" + doc;
      t == s.(fs := t.fs)
      && (doc == "/" ==> t.fs == map[])
      && (doc != "/" ==> t.fs == s.fs - {key})
  {
  }

  /** `f_cp`: the second argument gets the first one's file. */
  function Cp(s: StateValue, node: Node): (e: Effect)
    ensures |node.parts| > 2 && node.parts[1].word.Some? && node.parts[2].word.Some? ==>
      e == Done(s.CopyFile(node.parts[1].word.value, node.parts[2].word.value))
    ensures e.err.Some? ==> e.state == s
    ensures |node.parts| <= 1 ==> e.err == Some(IndexError)
    ensures |node.parts| > 1 && node.parts[1].word.None? ==> e.err == Some(AttributeError)
    ensures |node.parts| == 2 && node.parts[1].word.Some? ==> e.err == Some(IndexError)
  {
    var args := ArgsOf(node);
    if args.Err? then Raise(s, args.error)
    else if |args.value| == 0 then Raise(s, IndexError)
    else
      var a := WordOf(args.value[0]);
      if a.Err? then Raise(s, a.error)
      else if |args.value| == 1 then Raise(s, IndexError)
      else
        var b := WordOf(args.value[1]);
        if b.Err? then Raise(s, b.error)
        else Done(s.CopyFile(a.value, b.value))
  }

  /** `f_mv`: a copy, then the source is removed. */
  function Mv(s: StateValue, node: Node): (e: Effect)
    ensures |node.parts| > 2 && node.parts[1].word.Some? && node.parts[2].word.Some? ==>
      e == Done(s.CopyFile(node.parts[1].word.value, node.parts[2].word.value).RemoveFile(node.parts[1].word.value))
    ensures e.err.Some? ==> e.state == s
  {
    var c := Cp(s, node);
    if c.err.Some? then c else Done(c.state.RemoveFile(node.parts[1].word.value))
  }

  /** For distinct names, `mv a b` leaves `b` with `a`'s file and no `a`. */
  lemma MvMovesFile(s: StateValue, node: Node)
    requires |node.parts| > 2 && node.parts[1].word.Some? && node.parts[2].word.Some?
    requires node.parts[1].word != node.parts[2].word
    ensures var a := node.parts[1].word.value;
      var b := node.parts[2].word.value;
      var t := Mv(s, node).state;
      a !in t.fs && b in t.fs
      && t.fs[b] == (if a in s.fs then s.fs[a] else File(a, Some(""), DefaultPermissions))
      && forall k :: k != a && k != b ==> (k in t.fs <==> k in s.fs) && (k in s.fs ==> t.fs[k] == s.fs[k])
  {
  }

  /** `unset -f`: removes each named function; an outer scope holding the name
      stops the loop with TypeError. */
  function UnsetFunctionsIn(s: StateValue, args: seq<Node>): (e: Effect)
    ensures e.err.None? ==> e.state == s.(functions := e.state.functions)
    ensures e.err.None? ==> forall k :: 0 <= k < |args| ==> args[k].word.Some? && args[k].word.value !in e.state.functions
    ensures e.err.None? ==> forall f :: f in s.functions && (forall k :: 0 <= k < |args| ==> args[k].word != Some(f)) ==>
      f in e.state.functions && e.state.functions[f] == s.functions[f]
    ensures e.err.None? ==> forall f :: f in e.state.functions ==> f in s.functions
    decreases |args|
  {
    if |args| == 0 then Done(s)
    else
      var w := WordOf(args[0]);
      if w.Err? then Raise(s, w.error)
      else
        var r := s.UnsetFunctions(w.value);
        if r.Err? then Raise(s, r.error) else UnsetFunctionsIn(r.value.0, args[1..])
  }

  /** Plain `unset`: each name removes its variable, or its function when there was
      no variable of that name. */
  function UnsetNames(s: StateValue, args: seq<Node>): (e: Effect)
    ensures e.err.None? ==> e.state == s.(variables := e.state.variables, functions := e.state.functions)
    ensures e.err.None? ==> forall k :: 0 <= k < |args| ==> args[k].word.Some? && args[k].word.value !in e.state.variables
    ensures e.err.None? ==> forall k :: 0 <= k < |args| ==> args[k].word.value !in s.variables ==> args[k].word.value !in e.state.functions
    ensures e.err.None? ==> forall v :: v in s.variables && (forall k :: 0 <= k < |args| ==> args[k].word != Some(v)) ==>
      v in e.state.variables && e.state.variables[v] == s.variables[v]
    ensures e.err.None? ==> forall v :: v in e.state.variables ==> v in s.variables
    ensures e.err.None? ==> forall f :: f in e.state.functions ==> f in s.functions
    decreases |args|
  {
    if |args| == 0 then Done(s)
    else
      var w := WordOf(args[0]);
      if w.Err? then Raise(s, w.error)
      else
        var r := s.UnsetVariables(w.value);
        if r.Err? then Raise(s, r.error)
        else if r.value.1 then UnsetNames(r.value.0, args[1..])
        else
          var f := r.value.0.UnsetFunctions(w.value);
          if f.Err? then Raise(r.value.0, f.error) else UnsetNames(f.value.0, args[1..])
  }

  /** `f_unset`: "-f" unsets functions, "-n" is not implemented and does nothing. */
  function Unset(s: StateValue, node: Node): (e: Effect)
    ensures |node.parts| <= 1 ==> e == Raise(s, IndexError)
    ensures |node.parts| > 1 && node.parts[1].word.None? ==> e == Raise(s, AttributeError)
    ensures |node.parts| > 1 && node.parts[1].word == Some("-n") ==> e == Done(s)
    ensures |node.parts| > 1 && node.parts[1].word == Some("-f") ==> e == UnsetFunctionsIn(s, node.parts[2..])
    ensures |node.parts| > 1 && node.parts[1].word.Some? && node.parts[1].word != Some("-f") && node.parts[1].word != Some("-n") ==>
      e == UnsetNames(s, node.parts[1..])
  {
    var args := ArgsOf(node);
    if args.Err? then Raise(s, args.error)
    else if |args.value| == 0 then Raise(s, IndexError)
    else
      var flag := WordOf(args.value[0]);
      if flag.Err? then Raise(s, flag.error)
      else if flag.value == "-f" then UnsetFunctionsIn(s, args.value[1..])
      else if flag.value == "-n" then Done(s)
      else UnsetNames(s, args.value)
  }

  /** `f_shift`. */
  function Shift(s: StateValue): (e: Effect)
    ensures e.err.None? <==> s.ShiftVariables().Ok?
    ensures e.err.None? ==> e.state == s.ShiftVariables().value
    ensures e.err.Some? ==> e.state == s
  {
    var r := s.ShiftVariables();
    if r.Err? then Raise(s, r.error) else Done(r.value)
  }

  /** Runs the built-in `name` on the substituted command node. */
  function Call(name: string, s: StateValue, op: Operator, node: Node): (e: Effect)
    requires name in Bin
    ensures name == "echo" ==> e == Echo(s, node)
    ensures name == "cd" ==> e == Cd(s, node)
    ensures name == "wget" ==> e == Wget(s, op, node)
    ensures name == "chmod" ==> e == Chmod(s, node)
    ensures name == "rm" ==> e == Rm(s, node)
    ensures name == "mv" ==> e == Mv(s, node)
    ensures name == "cp" ==> e == Cp(s, node)
    ensures name == "unset" ==> e == Unset(s, node)
    ensures name == "shift" ==> e == Shift(s)
    ensures name == "bash" ==> e == Raise(s, Unmodelled("bash"))
    ensures name == "" ==> e == Done(s)
  {
    if name == "echo" then Echo(s, node)
    else if name == "cd" then Cd(s, node)
    else if name == "wget" then Wget(s, op, node)
    else if name == "chmod" then Chmod(s, node)
    else if name == "rm" then Rm(s, node)
    else if name == "mv" then Mv(s, node)
    else if name == "cp" then Cp(s, node)
    else if name == "unset" then Unset(s, node)
    else if name == "shift" then Shift(s)
    else if name == "bash" then Raise(s, Unmodelled("bash"))
    else Done(s)
  }
}
