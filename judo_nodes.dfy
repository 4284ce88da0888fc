/**
 * The nodes of the Judo command language: a flag (one letter after the dash),
 * an argument (its text, and whether it was written in quotes), a command
 * (its name, flags and arguments) and a program (a list of commands), with the
 * equality each node class defines and the escaping an argument uses to turn
 * back into text.
 */
module JudoNodes {
  import opened Wrappers
  import opened PyStr

  /** A flag or an argument: the two kinds of node a command holds. */
  datatype Leaf =
    | Flag(value: string)
    | Arg(value: string, quoted: bool)

  datatype Command = Command(func: string, flags: seq<Leaf>, args: seq<Leaf>)

  datatype Program = Program(commands: seq<Command>)

  /** `Flag.__eq__` and `Arg.__eq__`: a node of the same class with the same value
      (an argument's quoting is ignored). */
  predicate Equal(a: Leaf, b: Leaf): (r: bool)
    ensures r <==> (a.Flag? <==> b.Flag?) && a.value == b.value
  {
    match a
    case Flag(v) => b.Flag? && b.value == v
    case Arg(v, _) => b.Arg? && b.value == v
  }

  /** `x in ys`, which compares with `==`. */
  predicate In(x: Leaf, ys: seq<Leaf>) {
    exists j :: 0 <= j < |ys| && Equal(x, ys[j])
  }

  /** `Command.__eq__` with `a` on the left: the same name, as many flags and as
      many arguments, and each of `a`'s flags and arguments found among `b`'s. */
  predicate CommandEqual(a: Command, b: Command): (r: bool)
    ensures r <==> a.func == b.func && |a.flags| == |b.flags| && |a.args| == |b.args|
                   && KeysAmong(a.flags, b.flags) && KeysAmong(a.args, b.args)
    ensures a == b ==> r
  {
    InIsKeyAmong(a.flags, b.flags);
    InIsKeyAmong(a.args, b.args);
    SelfAmong(a.flags);
    SelfAmong(a.args);
    a.func == b.func
    && |a.flags| == |b.flags| && (forall i :: 0 <= i < |a.flags| ==> In(a.flags[i], b.flags))
    && |a.args| == |b.args| && (forall i :: 0 <= i < |a.args| ==> In(a.args[i], b.args))
  }

  /** Every key of `xs` is a key of `ys`. */
  predicate KeysAmong(xs: seq<Leaf>, ys: seq<Leaf>) {
    forall i :: 0 <= i < |xs| ==> Key(xs[i]) in Keys(ys)
  }

  /** Membership with `==` is membership of the key, element by element. */
  lemma InIsKeyAmong(xs: seq<Leaf>, ys: seq<Leaf>)
    ensures (forall i :: 0 <= i < |xs| ==> In(xs[i], ys)) <==> KeysAmong(xs, ys)
  {
    forall i | 0 <= i < |xs|
      ensures In(xs[i], ys) <==> Key(xs[i]) in Keys(ys)
    {
      if Key(xs[i]) in Keys(ys) {
        var j :| 0 <= j < |ys| && Keys(ys)[j] == Key(xs[i]);
        assert Equal(xs[i], ys[j]);
      }
      if In(xs[i], ys) {
        var j :| 0 <= j < |ys| && Equal(xs[i], ys[j]);
        assert Keys(ys)[j] == Key(xs[i]);
      }
    }
  }

  /** Every leaf of a list is found in that list. */
  lemma SelfAmong(xs: seq<Leaf>)
    ensures forall i :: 0 <= i < |xs| ==> In(xs[i], xs)
  {
    forall i | 0 <= i < |xs|
      ensures In(xs[i], xs)
    {
      assert Equal(xs[i], xs[i]) by {
        match xs[i]
        case Flag(_) =>
        case Arg(_, _) =>
      }
    }
  }

  /** A command as its constructor accepts it: only flags among the flags and only
      arguments among the arguments. */
  predicate ValidCommand(c: Command) {
    (forall i :: 0 <= i < |c.flags| ==> c.flags[i].Flag?) && (forall i :: 0 <= i < |c.args| ==> c.args[i].Arg?)
  }

  /** `Command(func, flags, args)`: a flag that is not a `Flag`, or an argument that
      is not an `Arg`, raises (the source names an exception class it never defines,
      so the error is a NameError). */
  function MakeCommand(func: string, flags: seq<Leaf>, args: seq<Leaf>): (r: Result<Command>)
    ensures r.Ok? <==> ValidCommand(Command(func, flags, args))
    ensures r.Ok? ==> r.value == Command(func, flags, args)
    ensures r.Err? ==> r.error == NameError
  {
    if (forall i :: 0 <= i < |flags| ==> flags[i].Flag?) && (forall i :: 0 <= i < |args| ==> args[i].Arg?) then
      Ok(Command(func, flags, args))
    else Err(NameError)
  }

  /** What the equality of a flag or an argument looks at. */
  function Key(x: Leaf): (k: (bool, string))
    ensures k.0 <==> x.Flag?
    ensures k.1 == x.value
  {
    (x.Flag?, x.value)
  }

  function Keys(xs: seq<Leaf>): (ks: seq<(bool, string)>)
    ensures |ks| == |xs|
    ensures forall i :: 0 <= i < |xs| ==> ks[i] == Key(xs[i])
  {
    seq(|xs|, i requires 0 <= i < |xs| => Key(xs[i]))
  }

  /** Flag and argument equality compares the class and the value: it is an
      equivalence, it never holds between a flag and an argument, and membership
      is membership of the key. */
  lemma LeafEquality(a: Leaf, b: Leaf, c: Leaf, ys: seq<Leaf>)
    ensures Equal(a, a)
    ensures Equal(a, b) <==> Equal(b, a)
    ensures Equal(a, b) && Equal(b, c) ==> Equal(a, c)
    ensures Equal(a, b) <==> Key(a) == Key(b)
    ensures a.Flag? && b.Arg? ==> !Equal(a, b)
    ensures Equal(Arg(a.value, true), Arg(a.value, false))
    ensures In(a, ys) <==> Key(a) in Keys(ys)
  {
    if Key(a) in Keys(ys) {
      var j :| 0 <= j < |ys| && Keys(ys)[j] == Key(a);
      assert Equal(a, ys[j]);
    }
  }

  /** Command equality as written is not symmetric: membership is checked in one
      direction only, so a repeated argument hides a missing one. */
  lemma CommandEqualityNotSymmetric(f: string, x: string, y: string)
    requires x != y
    ensures var a := Command(f, [], [Arg(x, false), Arg(x, false)]);
            var b := Command(f, [], [Arg(x, false), Arg(y, false)]);
            CommandEqual(a, b) && !CommandEqual(b, a)
  {
    var a := Command(f, [], [Arg(x, false), Arg(x, false)]);
    var b := Command(f, [], [Arg(x, false), Arg(y, false)]);
    assert Equal(a.args[0], b.args[0]) && Equal(a.args[1], b.args[0]);
    assert In(a.args[0], b.args) && In(a.args[1], b.args);
    assert !In(b.args[1], a.args);
  }

  /** The order-insensitive equality the command class evidently means: the same
      name, and the same flags and arguments counted with repetition. */
  predicate Equivalent(a: Command, b: Command): (r: bool)
    ensures r ==> a.func == b.func && |a.flags| == |b.flags| && |a.args| == |b.args|
    ensures a == b ==> r
  {
    assert |multiset(Keys(a.flags))| == |a.flags| && |multiset(Keys(b.flags))| == |b.flags|;
    assert |multiset(Keys(a.args))| == |a.args| && |multiset(Keys(b.args))| == |b.args|;
    a.func == b.func && multiset(Keys(a.flags)) == multiset(Keys(b.flags)) && multiset(Keys(a.args)) == multiset(Keys(b.args))
  }

  lemma EquivalentIsEquivalence(a: Command, b: Command, c: Command)
    ensures Equivalent(a, a)
    ensures Equivalent(a, b) <==> Equivalent(b, a)
    ensures Equivalent(a, b) && Equivalent(b, c) ==> Equivalent(a, c)
  {
  }

  /** Reordering the flags and arguments of a command keeps it equivalent. */
  lemma EquivalentIgnoresOrder(f: string, flags: seq<Leaf>, args: seq<Leaf>, flags': seq<Leaf>, args': seq<Leaf>)
    requires multiset(flags) == multiset(flags') && multiset(args) == multiset(args')
    ensures Equivalent(Command(f, flags, args), Command(f, flags', args'))
  {
    MultisetOfKeys(flags, flags');
    MultisetOfKeys(args, args');
  }

  lemma {:induction false} MultisetOfKeys(xs: seq<Leaf>, ys: seq<Leaf>)
    requires multiset(xs) == multiset(ys)
    ensures multiset(Keys(xs)) == multiset(Keys(ys))
    decreases |xs|
  {
    if |xs| > 0 {
      assert xs[0] in multiset(ys);
      var j :| 0 <= j < |ys| && ys[j] == xs[0];
      var rest := ys[..j] + ys[j + 1..];
      RemoveFirst(xs, ys, j);
      MultisetOfKeys(xs[1..], rest);
      Remove(ys, j);
      assert xs == [xs[0]] + xs[1..];
      KeysAppend([xs[0]], xs[1..]);
      assert Keys([xs[0]]) == [Key(xs[0])];
      assert multiset(Keys(xs)) == multiset{Key(xs[0])} + multiset(Keys(xs[1..]));
    } else {
      assert ys == [];
    }
  }

  lemma RemoveFirst<T>(xs: seq<T>, ys: seq<T>, j: nat)
    requires multiset(xs) == multiset(ys) && 0 < |xs| && j < |ys| && ys[j] == xs[0]
    ensures multiset(xs[1..]) == multiset(ys[..j] + ys[j + 1..])
  {
    var b, a := ys[..j], ys[j + 1..];
    assert ys == b + [ys[j]] + a;
    assert multiset(ys) == multiset(b) + multiset{xs[0]} + multiset(a);
    assert multiset(b + a) == multiset(b) + multiset(a);
    assert xs == [xs[0]] + xs[1..];
    assert multiset(xs) == multiset{xs[0]} + multiset(xs[1..]);
    assert multiset(xs[1..]) == multiset(xs) - multiset{xs[0]};
    assert multiset(b + a) == multiset(ys) - multiset{xs[0]};
  }

  /** Taking out position `j` takes its key out of the multiset of keys. */
  lemma Remove(ys: seq<Leaf>, j: nat)
    requires j < |ys|
    ensures multiset(Keys(ys)) == multiset(Keys(ys[..j] + ys[j + 1..])) + multiset{Key(ys[j])}
  {
    var b, a := ys[..j], ys[j + 1..];
    assert ys == b + [ys[j]] + a;
    KeysAppend(b + [ys[j]], a);
    KeysAppend(b, [ys[j]]);
    KeysAppend(b, a);
  }

  lemma KeysAppend(a: seq<Leaf>, b: seq<Leaf>)
    ensures Keys(a + b) == Keys(a) + Keys(b)
  {
  }

  /** Where no flag and no argument of `a` repeats, the written equality and the
      intended one agree, in both directions. */
  lemma AsWrittenAgreesWithoutRepeats(a: Command, b: Command)
    requires Distinct(Keys(a.flags)) && Distinct(Keys(a.args))
    ensures CommandEqual(a, b) <==> Equivalent(a, b)
  {
    if CommandEqual(a, b) {
      CoveredIsPermutation(a.flags, b.flags);
      CoveredIsPermutation(a.args, b.args);
    }
    if Equivalent(a, b) {
      MultisetCovers(a.flags, b.flags);
      MultisetCovers(a.args, b.args);
    }
  }

  ghost predicate Distinct<T>(s: seq<T>) {
    forall i, j :: 0 <= i < j < |s| ==> s[i] != s[j]
  }

  /** Equal multisets of keys: each element of `xs` has an equal one in `ys`. */
  lemma MultisetCovers(xs: seq<Leaf>, ys: seq<Leaf>)
    requires multiset(Keys(xs)) == multiset(Keys(ys))
    ensures |xs| == |ys|
    ensures forall i :: 0 <= i < |xs| ==> In(xs[i], ys)
  {
    assert |Keys(xs)| == |multiset(Keys(xs))| == |multiset(Keys(ys))| == |Keys(ys)|;
    forall i | 0 <= i < |xs|
      ensures In(xs[i], ys)
    {
      assert Keys(xs)[i] in multiset(Keys(ys));
      LeafEquality(xs[i], xs[i], xs[i], ys);
    }
  }

  /** Each of `|xs|` distinct keys found among as many keys of `ys`: the two lists
      hold the same keys, each once. */
  lemma CoveredIsPermutation(xs: seq<Leaf>, ys: seq<Leaf>)
    requires Distinct(Keys(xs)) && |xs| == |ys|
    requires forall i :: 0 <= i < |xs| ==> In(xs[i], ys)
    ensures multiset(Keys(xs)) == multiset(Keys(ys))
  {
    var kx, ky := Keys(xs), Keys(ys);
    forall i | 0 <= i < |xs| ensures kx[i] in set k | k in ky {
      LeafEquality(xs[i], xs[i], xs[i], ys);
    }
    var sx := set k | k in kx;
    var sy := set k | k in ky;
    assert sx <= sy;
    DistinctCard(kx);
    CardAtMost(ky);
    SubsetCard(sx, sy);
    assert sx == sy by {
      if sx != sy {
        var extra :| extra in sy && extra !in sx;
        SubsetCard(sx, sy - {extra});
      }
    }
    CardEqualMeansDistinct(ky);
    DistinctMultiset(kx);
    DistinctMultiset(ky);
  }

  lemma {:induction false} DistinctCard<T>(s: seq<T>)
    requires Distinct(s)
    ensures |set x | x in s| == |s|
    decreases |s|
  {
    if |s| > 0 {
      DistinctCard(s[1..]);
      assert (set x | x in s) == {s[0]} + (set x | x in s[1..]);
      assert s[0] !in (set x | x in s[1..]);
    } else {
      assert (set x | x in s) == {};
    }
  }

  lemma {:induction false} CardAtMost<T>(s: seq<T>)
    ensures |set x | x in s| <= |s|
    decreases |s|
  {
    if |s| > 0 {
      CardAtMost(s[1..]);
      assert (set x | x in s) == {s[0]} + (set x | x in s[1..]);
    } else {
      assert (set x | x in s) == {};
    }
  }

  /** A sequence with as many distinct elements as it has positions repeats nothing. */
  lemma {:induction false} CardEqualMeansDistinct<T>(s: seq<T>)
    requires |set x | x in s| == |s|
    ensures Distinct(s)
    decreases |s|
  {
    if |s| > 0 {
      var rest := set x | x in s[1..];
      assert (set x | x in s) == {s[0]} + rest;
      CardAtMost(s[1..]);
      CardEqualMeansDistinct(s[1..]);
      forall i, j | 0 <= i < j < |s| ensures s[i] != s[j] {
        if i == 0 {
          assert s[j] == s[1..][j - 1];
        } else {
          assert s[i] == s[1..][i - 1] && s[j] == s[1..][j - 1];
        }
      }
    }
  }

  lemma SubsetCard<T>(a: set<T>, b: set<T>)
    requires a <= b
    ensures |a| <= |b|
  {
    assert b == a + (b - a);
  }

  /** A sequence that repeats nothing holds each of its elements once. */
  lemma {:induction false} DistinctMultiset<T>(s: seq<T>)
    requires Distinct(s)
    ensures multiset(s) == multiset(set x | x in s)
    decreases |s|
  {
    if |s| > 0 {
      assert Distinct(s[1..]) by {
        forall i, j | 0 <= i < j < |s[1..]| ensures s[1..][i] != s[1..][j] {
          assert s[1..][i] == s[i + 1] && s[1..][j] == s[j + 1];
        }
      }
      DistinctMultiset(s[1..]);
      assert s == [s[0]] + s[1..];
      assert (set x | x in s) == {s[0]} + (set x | x in s[1..]);
      assert s[0] !in (set x | x in s[1..]);
    } else {
      assert (set x | x in s) == {};
    }
  }

  /** `Program.__eq__`: as many commands, and each of `p`'s commands equal, as
      written, to `q`'s at the same position (`!=` is the negation of `__eq__`). */
  predicate ProgramEquals(p: Program, q: Program)
    ensures ProgramEquals(p, q) ==> |p.commands| == |q.commands|
    ensures p == q ==> ProgramEquals(p, q)
  {
    |p.commands| == |q.commands| && forall i :: 0 <= i < |p.commands| ==> CommandEqual(p.commands[i], q.commands[i])
  }

  /** Program equality as written inherits the asymmetry of command equality, and
      agrees with the intended one when no command on the left repeats a flag or an
      argument. */
  lemma ProgramEqualityNotSymmetric(f: string, x: string, y: string)
    requires x != y
    ensures var p := Program([Command(f, [], [Arg(x, false), Arg(x, false)])]);
            var q := Program([Command(f, [], [Arg(x, false), Arg(y, false)])]);
            ProgramEquals(p, q) && !ProgramEquals(q, p)
  {
    var a := Command(f, [], [Arg(x, false), Arg(x, false)]);
    var b := Command(f, [], [Arg(x, false), Arg(y, false)]);
    CommandEqualityNotSymmetric(f, x, y);
    assert Program([a]).commands[0] == a && Program([b]).commands[0] == b;
  }

  /** Position by position with the intended command equality. */
  predicate ProgramEquivalent(p: Program, q: Program)
    ensures ProgramEquivalent(p, q) ==> |p.commands| == |q.commands|
    ensures p == q ==> ProgramEquivalent(p, q)
  {
    |p.commands| == |q.commands| && forall i :: 0 <= i < |p.commands| ==> Equivalent(p.commands[i], q.commands[i])
  }

  lemma ProgramEquivalentIsEquivalence(p: Program, q: Program, r: Program)
    ensures ProgramEquivalent(p, p)
    ensures ProgramEquivalent(p, q) <==> ProgramEquivalent(q, p)
    ensures ProgramEquivalent(p, q) && ProgramEquivalent(q, r) ==> ProgramEquivalent(p, r)
  {
    forall i | 0 <= i < |p.commands| && i < |q.commands| && i < |r.commands|
      ensures Equivalent(p.commands[i], p.commands[i])
      ensures Equivalent(p.commands[i], q.commands[i]) <==> Equivalent(q.commands[i], p.commands[i])
      ensures Equivalent(p.commands[i], q.commands[i]) && Equivalent(q.commands[i], r.commands[i]) ==> Equivalent(p.commands[i], r.commands[i])
    {
      EquivalentIsEquivalence(p.commands[i], q.commands[i], r.commands[i]);
    }
    forall i | 0 <= i < |p.commands| ensures Equivalent(p.commands[i], p.commands[i]) {
      EquivalentIsEquivalence(p.commands[i], p.commands[i], p.commands[i]);
    }
  }

  /** Where no command of `p` repeats a flag or an argument, the written program
      equality and the intended one agree. */
  lemma ProgramAsWrittenAgreesWithoutRepeats(p: Program, q: Program)
    requires forall i :: 0 <= i < |p.commands| ==> Distinct(Keys(p.commands[i].flags)) && Distinct(Keys(p.commands[i].args))
    ensures ProgramEquals(p, q) <==> ProgramEquivalent(p, q)
  {
    forall i | 0 <= i < |p.commands| && i < |q.commands|
      ensures CommandEqual(p.commands[i], q.commands[i]) <==> Equivalent(p.commands[i], q.commands[i])
    {
      AsWrittenAgreesWithoutRepeats(p.commands[i], q.commands[i]);
    }
  }

  /** The text one character of an argument becomes in `unescape`. */
  function EscapeOf(c: char): (s: string)
    ensures |s| == 1 <==> c !in "\\\"\t\n"
    ensures |s| == 1 ==> s == [c]
    ensures |s| != 1 ==> |s| == 2 && s[0] == '\\'
  {
    if c == '\\' then "\\\\" else if c == '"' then "\\\"" else if c == '\t' then "\\t" else if c == '\n' then "\\n" else [c]
  }

  function EscapeAll(s: string): string
    decreases |s|
  {
    if |s| == 0 then "" else EscapeOf(s[0]) + EscapeAll(s[1..])
  }

  /** `Arg.unescape()`: backslashes, double quotes, tabs and newlines are written as
      escapes, and a quoted argument is put back in double quotes. */
  function Unescape(a: Leaf): (r: string)
    requires a.Arg?
    ensures a.quoted ==> |r| >= 2 && r[..1] == "\"" && r[|r| - 1..] == "\""
    ensures !a.quoted && a.value == "" ==> r == ""
  {
    if a.quoted then "\"" + EscapeAll(a.value) + "\"" else EscapeAll(a.value)
  }

  /** `unescape` does its work as four `replace` calls in a row, backslashes first;
      together they escape the text character by character. */
  lemma UnescapeIsReplaceChain(a: Leaf)
    requires a.Arg?
    ensures Unescape(a) == if a.quoted then "\"" + Chain(a.value) + "\"" else Chain(a.value)
  {
    ChainIsEscapeAll(a.value);
  }

  /** The four replacements of `unescape`, in the order it makes them. */
  function Chain(s: string): string {
    ReplaceChar(ReplaceChar(ReplaceChar(ReplaceChar(s, '\\', "\\\\"), '"', "\\\""), '\t', "\\t"), '\n', "\\n")
  }

  /** The four replacements in a row act character by character: none of them
      introduces a character a later one replaces. */
  lemma {:induction false} ChainIsEscapeAll(s: string)
    ensures Chain(s) == EscapeAll(s)
    decreases |s|
  {
    if |s| > 0 {
      var c := [s[0]];
      assert s == c + s[1..];
      ChainAppend(c, s[1..]);
      ChainIsEscapeAll(s[1..]);
      ChainOne(s[0]);
    }
  }

  lemma ChainOne(ch: char)
    ensures Chain([ch]) == EscapeOf(ch)
  {
    var one := [ch];
    if ch == '\\' {
      ReplaceCharOne(ch, '\\', "\\\\");
      ReplaceCharAbsent("\\\\", '"', "\\\"");
      ReplaceCharAbsent("\\\\", '\t', "\\t");
      ReplaceCharAbsent("\\\\", '\n', "\\n");
    } else if ch == '"' {
      ReplaceCharAbsent(one, '\\', "\\\\");
      ReplaceCharOne(ch, '"', "\\\"");
      ReplaceCharAbsent("\\\"", '\t', "\\t");
      ReplaceCharAbsent("\\\"", '\n', "\\n");
    } else if ch == '\t' {
      ReplaceCharAbsent(one, '\\', "\\\\");
      ReplaceCharAbsent(one, '"', "\\\"");
      ReplaceCharOne(ch, '\t', "\\t");
      ReplaceCharAbsent("\\t", '\n', "\\n");
    } else {
      ReplaceCharAbsent(one, '\\', "\\\\");
      ReplaceCharAbsent(one, '"', "\\\"");
      ReplaceCharAbsent(one, '\t', "\\t");
      ReplaceCharOne(ch, '\n', "\\n");
    }
  }

  lemma ReplaceCharOne(ch: char, c: char, r: string)
    ensures ReplaceChar([ch], c, r) == if ch == c then r else [ch]
  {
    assert [ch][1..] == [];
  }

  lemma {:induction false} ReplaceCharAbsent(s: string, c: char, r: string)
    requires forall i :: 0 <= i < |s| ==> s[i] != c
    ensures ReplaceChar(s, c, r) == s
    decreases |s|
  {
    if |s| > 0 {
      ReplaceCharAbsent(s[1..], c, r);
    }
  }

  lemma ChainAppend(a: string, b: string)
    ensures Chain(a + b) == Chain(a) + Chain(b)
  {
    var a1, b1 := ReplaceChar(a, '\\', "\\\\"), ReplaceChar(b, '\\', "\\\\");
    ReplaceCharAppend(a, b, '\\', "\\\\");
    var a2, b2 := ReplaceChar(a1, '"', "\\\""), ReplaceChar(b1, '"', "\\\"");
    ReplaceCharAppend(a1, b1, '"', "\\\"");
    var a3, b3 := ReplaceChar(a2, '\t', "\\t"), ReplaceChar(b2, '\t', "\\t");
    ReplaceCharAppend(a2, b2, '\t', "\\t");
    ReplaceCharAppend(a3, b3, '\n', "\\n");
  }
}
