/**
 * The combined lexer and parser that turns one line of the Judo shell into
 * its flags and its arguments.
 *
 * The specification functions read the text from a position and say what
 * each reader returns and where it stops; the `Parser` class keeps the text
 * and the read position in fields and advances the position character by
 * character, and each of its methods is proved to do what the function of
 * the same reader says.
 */
module JudoParse {
  import opened Wrappers
  import opened PyStr
  import opened JudoNodes

  /** The character an escape stands for: `\n`, `\t`, `\\`, `\"` and `\'`. */
  function Decode(c: char): (d: Option<char>)
    ensures d.Some? <==> c in "nt\\\"'"
  {
    if c == 'n' then Some('\n')
    else if c == 't' then Some('\t')
    else if c == '\\' then Some('\\')
    else if c == '"' then Some('"')
    else if c == '\'' then Some('\'')
    else None
  }

  /** `escape_char` with the read position at `i`: the character after `i`, decoded.
      Any other character, or none, makes the error message's `, + c` apply unary plus
      to a string or to None, which is a TypeError. */
  function EscapeAt(t: string, i: nat): (r: Result<char>)
    ensures r.Ok? <==> i + 1 < |t| && t[i + 1] in "nt\\\"'"
    ensures r.Ok? ==> Decode(t[i + 1]) == Some(r.value)
    ensures r.Err? ==> r.error == TypeError
  {
    if i + 1 < |t| && Decode(t[i + 1]).Some? then Ok(Decode(t[i + 1]).value) else Err(TypeError)
  }

  /** Where an unquoted argument ends: the end of the text, a space or a colon. */
  predicate WordStop(t: string, j: nat) {
    j >= |t| || IsSpace(t[j]) || t[j] == ':'
  }

  function Cons(s: string, r: Result<(string, nat)>): Result<(string, nat)> {
    match r
    case Ok((w, j)) => Ok((s + w, j))
    case Err(e) => Err(e)
  }

  /** `ARG` from position `i`: the decoded text up to the next space or colon, and
      the position of that stop. */
  function WordAt(t: string, i: nat): (r: Result<(string, nat)>)
    ensures r.Ok? ==> i <= r.value.1 && WordStop(t, r.value.1) && (r.value.1 == i || r.value.1 <= |t|)
    ensures r.Ok? && !WordStop(t, i) ==> i < r.value.1 && |r.value.0| > 0
    ensures r.Ok? ==> forall k :: 0 <= k < |r.value.0| ==> r.value.0[k] != ':'
    ensures r.Err? ==> r.error == TypeError
    decreases |t| - i
  {
    if WordStop(t, i) then Ok(("", i))
    else if t[i] == '\\' then
      match EscapeAt(t, i)
      case Err(e) => Err(e)
      case Ok(c) => Cons([c], WordAt(t, i + 2))
    else Cons([t[i]], WordAt(t, i + 1))
  }

  /** The body of a quoted argument from position `i`, up to the next unescaped `q`:
      its decoded text and the position of the closing quote. Running off the end
      adds None to a string, which is a TypeError. */
  function QuoteBody(t: string, i: nat, q: char): (r: Result<(string, nat)>)
    ensures r.Ok? ==> i <= r.value.1 < |t| && t[r.value.1] == q
    ensures r.Err? ==> r.error == TypeError
    decreases |t| - i
  {
    if i >= |t| then Err(TypeError)
    else if t[i] == q then Ok(("", i))
    else if t[i] == '\\' then
      match EscapeAt(t, i)
      case Err(e) => Err(e)
      case Ok(c) => Cons([c], QuoteBody(t, i + 2, q))
    else Cons([t[i]], QuoteBody(t, i + 1, q))
  }

  const QuoteFollowMessage := "Quoted arguments must be followed by a space or colon. Encountered character: "

  /** `QUOTE` at position `i`: the quote character there opens the argument, the
      body runs to the matching quote, and what follows must be the end, a space or
      a colon. */
  function QuoteAt(t: string, i: nat): (r: Result<(Leaf, nat)>)
    requires i < |t|
    ensures r.Ok? ==> r.value.0 == Arg(r.value.0.value, true) && i < r.value.1 <= |t| && WordStop(t, r.value.1)
    ensures r.Err? ==> r.error == TypeError || r.error.ParseError?
  {
    match QuoteBody(t, i + 1, t[i])
    case Err(e) => Err(e)
    case Ok((s, j)) =>
      if j + 1 < |t| && !IsSpace(t[j + 1]) && t[j + 1] != ':' then
        Err(ParseError(QuoteFollowMessage + [t[j + 1]]))
      else Ok((Arg(s, true), j + 1))
  }

  /** `skip_whitespace` from `i`: the first position that does not hold a space. */
  function SpaceEnd(t: string, i: nat): (j: nat)
    ensures i <= j && (j == i || j <= |t|)
    ensures j >= |t| || !IsSpace(t[j])
    ensures forall k :: i <= k < j ==> IsSpace(t[k])
    decreases |t| - i
  {
    if i < |t| && IsSpace(t[i]) then SpaceEnd(t, i + 1) else i
  }

  /** `skip_comment` from `i`: just past the next newline, or the end. */
  function CommentEnd(t: string, i: nat): (j: nat)
    ensures i <= j && (j == i || j <= |t|)
    ensures forall k :: i <= k < j - 1 ==> t[k] != '\n'
    ensures j < |t| ==> j > i && t[j - 1] == '\n'
    decreases |t| - i
  {
    if i >= |t| then i
    else if t[i] == '\n' then i + 1
    else CommentEnd(t, i + 1)
  }

  /** The flag letters from `i`: one flag per character up to a space, a `;` or
      the end. */
  function FlagRun(t: string, i: nat): (r: (seq<Leaf>, nat))
    ensures r.1 == i + |r.0| && (r.1 == i || r.1 <= |t|)
    decreases |t| - i
  {
    if i < |t| && !IsSpace(t[i]) && t[i] != ';' then
      var (fs, j) := FlagRun(t, i + 1);
      ([Flag([t[i]])] + fs, j)
    else ([], i)
  }

  /** The flags are the characters from `i` on, one each, up to the first space,
      `;` or the end. */
  lemma {:induction false} FlagRunShape(t: string, i: nat)
    ensures var r := FlagRun(t, i);
            && (forall k :: 0 <= k < |r.0| ==> r.0[k] == Flag([t[i + k]]))
            && (forall k :: i <= k < r.1 ==> !IsSpace(t[k]) && t[k] != ';')
            && (r.1 >= |t| || IsSpace(t[r.1]) || t[r.1] == ';')
    decreases |t| - i
  {
    if i < |t| && !IsSpace(t[i]) && t[i] != ';' {
      FlagRunShape(t, i + 1);
      var r, r' := FlagRun(t, i), FlagRun(t, i + 1);
      assert r.0 == [Flag([t[i]])] + r'.0;
      forall k | 0 <= k < |r.0| ensures r.0[k] == Flag([t[i + k]]) {
        if k > 0 {
          assert r.0[k] == r'.0[k - 1];
        }
      }
    }
  }

  /** `flags` with the read position on the dash at `i`: past the dash, past any
      spaces right after it, then the flag letters. */
  function FlagsAt(t: string, i: nat): (r: (seq<Leaf>, nat))
    ensures r.1 > i
    ensures forall k :: 0 <= k < |r.0| ==> r.0[k].Flag? && |r.0[k].value| == 1
  {
    FlagRunShape(t, SpaceEnd(t, i + 1));
    FlagRun(t, SpaceEnd(t, i + 1))
  }

  function ConsArg(a: Leaf, r: Result<seq<Leaf>>): Result<seq<Leaf>> {
    match r
    case Ok(args) => Ok([a] + args)
    case Err(e) => Err(e)
  }

  /** `args` from position `i`: spaces are skipped, `#` drops the rest of the line,
      a colon is an argument of its own, a quote opens a quoted argument, and
      anything else starts an unquoted one. */
  function ArgsAt(t: string, i: nat): (r: Result<seq<Leaf>>)
    ensures r.Ok? ==> forall k :: 0 <= k < |r.value| ==> r.value[k].Arg?
    decreases |t| - i
  {
    if i >= |t| then Ok([])
    else if IsSpace(t[i]) then ArgsAt(t, SpaceEnd(t, i))
    else if t[i] == '#' then ArgsAt(t, CommentEnd(t, i + 1))
    else if t[i] == ':' then ConsArg(Arg(":", false), ArgsAt(t, i + 1))
    else if t[i] == '"' || t[i] == '\'' then
      match QuoteAt(t, i)
      case Err(e) => Err(e)
      case Ok((a, j)) => ConsArg(a, ArgsAt(t, j))
    else
      match WordAt(t, i)
      case Err(e) => Err(e)
      case Ok((w, j)) => ConsArg(Arg(w, false), ArgsAt(t, j))
  }

  /** `parse(text)`: flags only when the text starts with a dash, then the arguments. */
  function ParseText(t: string): (r: Result<(seq<Leaf>, seq<Leaf>)>)
    ensures |t| == 0 ==> r == Ok(([], []))
    ensures (|t| == 0 || t[0] != '-') && r.Ok? ==> r.value.0 == []
  {
    if |t| > 0 && t[0] == '-' then WithFlags(FlagsAt(t, 0).0, ArgsAt(t, FlagsAt(t, 0).1))
    else WithFlags([], ArgsAt(t, 0))
  }

  function WithFlags(flags: seq<Leaf>, r: Result<seq<Leaf>>): Result<(seq<Leaf>, seq<Leaf>)> {
    match r
    case Ok(args) => Ok((flags, args))
    case Err(e) => Err(e)
  }

  /** The shape of every argument: a quoted one, a lone colon, or a non-empty
      unquoted word without a colon. */
  predicate ArgShape(a: Leaf) {
    a.Arg? && (a.quoted || a.value == ":" || (|a.value| > 0 && forall k :: 0 <= k < |a.value| ==> a.value[k] != ':'))
  }

  lemma {:induction false} ArgsShape(t: string, i: nat)
    ensures ArgsAt(t, i).Ok? ==> forall k :: 0 <= k < |ArgsAt(t, i).value| ==> ArgShape(ArgsAt(t, i).value[k])
    decreases |t| - i
  {
    if i >= |t| {
    } else if IsSpace(t[i]) {
      ArgsShape(t, SpaceEnd(t, i));
    } else if t[i] == '#' {
      ArgsShape(t, CommentEnd(t, i + 1));
    } else if t[i] == ':' {
      ArgsShape(t, i + 1);
    } else if t[i] == '"' || t[i] == '\'' {
      if QuoteAt(t, i).Ok? {
        ArgsShape(t, QuoteAt(t, i).value.1);
      }
    } else if WordAt(t, i).Ok? {
      ArgsShape(t, WordAt(t, i).value.1);
    }
  }

  /** What `parse` returns: flags only for a text that starts with a dash, each a
      single character that is neither a space nor `;`, and arguments of the shape
      above. */
  lemma ParsedShape(t: string)
    ensures ParseText(t).Ok? ==>
              var (flags, args) := ParseText(t).value;
              && (|flags| > 0 ==> |t| > 0 && t[0] == '-')
              && (forall k :: 0 <= k < |flags| ==>
                    (flags[k].Flag? && |flags[k].value| == 1 && !IsSpace(flags[k].value[0]) && flags[k].value[0] != ';'))
              && (forall k :: 0 <= k < |args| ==> ArgShape(args[k]))
  {
    var j := if |t| > 0 && t[0] == '-' then FlagsAt(t, 0).1 else 0;
    ArgsShape(t, j);
    FlagRunShape(t, SpaceEnd(t, 1));
  }

  /** A comment runs through the next newline: whatever it holds, reading resumes
      right after it. */
  lemma CommentSkipsLine(t: string, i: nat, c: string)
    requires i + |c| + 2 <= |t| && t[i..i + |c| + 2] == "#" + c + "\n"
    requires forall k :: 0 <= k < |c| ==> c[k] != '\n'
    ensures ArgsAt(t, i) == ArgsAt(t, i + |c| + 2)
  {
    assert t[i] == '#';
    assert t[i + |c| + 1] == '\n';
    assert forall k :: i + 1 <= k < i + |c| + 1 ==> t[k] == c[k - i - 1];
  }

  /** An escape other than the five known ones stops the parse. */
  lemma UnknownEscape(x: char, rest: string)
    requires x !in "nt\\\"'"
    ensures ParseText("a\\" + [x] + rest) == Err(TypeError)
  {
    var t := "a\\" + [x] + rest;
    assert t[0] == 'a' && t[1] == '\\' && t[2] == x;
    assert WordAt(t, 1) == Err(TypeError);
  }

  /** A quoted argument that is never closed is an error. */
  lemma {:induction false} UnclosedQuote(t: string, i: nat, q: char)
    requires forall k :: i <= k < |t| ==> t[k] != q && t[k] != '\\'
    ensures QuoteBody(t, i, q) == Err(TypeError)
    decreases |t| - i
  {
    if i < |t| {
      UnclosedQuote(t, i + 1, q);
    }
  }

  /** Written with `unescape`, a quoted argument reads back as itself. */
  lemma QuotedRoundTrip(v: string)
    ensures ParseText(Unescape(Arg(v, true))) == Ok(([], [Arg(v, true)]))
  {
    var t := Unescape(Arg(v, true));
    QuotedArgs(v, t);
    assert t[0] == '"';
  }

  lemma QuotedArgs(v: string, t: string)
    requires t == "\"" + EscapeAll(v) + "\""
    ensures ArgsAt(t, 0) == Ok([Arg(v, true)])
  {
    var e := EscapeAll(v);
    assert t[1..1 + |e|] == e;
    QuoteBodyOfEscaped(v, t, 1);
    assert t[0] == '"';
    assert QuoteAt(t, 0) == Ok((Arg(v, true), |t|));
    assert !IsSpace(t[0]);
    assert ArgsAt(t, |t|) == Ok([]);
    assert ArgsAt(t, 0) == ConsArg(Arg(v, true), ArgsAt(t, |t|));
    assert [Arg(v, true)] + [] == [Arg(v, true)];
  }

  /** One character's escape: a single character other than a backslash or a
      double quote, or a backslash and the letter that decodes back to it. */
  lemma EscapeDecodes(c: char)
    ensures |EscapeOf(c)| == 1 ==> c != '"' && c != '\\' && c != '\t' && c != '\n'
    ensures |EscapeOf(c)| == 2 ==> Decode(EscapeOf(c)[1]) == Some(c)
  {
  }

  lemma {:induction false} QuoteBodyOfEscaped(w: string, t: string, i: nat)
    requires i + |EscapeAll(w)| < |t| && t[i..i + |EscapeAll(w)|] == EscapeAll(w) && t[i + |EscapeAll(w)|] == '"'
    ensures QuoteBody(t, i, '"') == Ok((w, i + |EscapeAll(w)|))
    decreases |w|
  {
    var e := EscapeAll(w);
    if |w| > 0 {
      var c := w[0];
      var head, tail := EscapeOf(c), EscapeAll(w[1..]);
      assert e == head + tail;
      var s := t[i..i + |e|];
      assert s[..|head|] == head && s[|head|..] == tail;
      assert t[i..i + |head|] == s[..|head|];
      assert t[i + |head|..i + |e|] == s[|head|..];
      assert t[i + |head| + |tail|] == '"';
      QuoteBodyOfEscaped(w[1..], t, i + |head|);
      EscapeDecodes(c);
      if |head| == 1 {
        assert t[i] == head[0] == c;
      } else {
        assert t[i] == head[0] == '\\' && t[i + 1] == head[1];
      }
      assert [c] + w[1..] == w;
    }
  }

  /** The characters an unquoted argument may hold and still read back as itself
      after `unescape`: no colon, and no space other than tab and newline (which are
      escaped). */
  predicate Plain(v: string) {
    forall k :: 0 <= k < |v| ==> v[k] != ':' && (IsSpace(v[k]) ==> v[k] == '\t' || v[k] == '\n')
  }

  /** Written with `unescape`, an unquoted argument reads back as itself when it is
      not empty, does not start like a flag, a comment or a single-quoted argument,
      and holds only plain characters. */
  lemma PlainRoundTrip(v: string)
    requires |v| > 0 && v[0] != '-' && v[0] != '#' && v[0] != '\'' && Plain(v)
    ensures ParseText(Unescape(Arg(v, false))) == Ok(([], [Arg(v, false)]))
  {
    var t := EscapeAll(v);
    assert t[0..] == t;
    WordOfEscaped(v, t, 0);
    assert t == EscapeOf(v[0]) + EscapeAll(v[1..]);
    assert t[0] == EscapeOf(v[0])[0];
    EscapeDecodes(v[0]);
    assert !IsSpace(t[0]) && t[0] != '#' && t[0] != ':' && t[0] != '"' && t[0] != '\'' && t[0] != '-';
    assert ArgsAt(t, |t|) == Ok([]);
    assert ArgsAt(t, 0) == ConsArg(Arg(v, false), ArgsAt(t, |t|));
    assert [Arg(v, false)] + [] == [Arg(v, false)];
    assert ParseText(t) == WithFlags([], ArgsAt(t, 0));
    assert ParseText(t) == Ok(([], [Arg(v, false)]));
    assert Unescape(Arg(v, false)) == t;
  }

  lemma {:induction false} WordOfEscaped(w: string, t: string, i: nat)
    requires Plain(w) && i + |EscapeAll(w)| == |t| && t[i..] == EscapeAll(w)
    ensures WordAt(t, i) == Ok((w, |t|))
    decreases |w|
  {
    var e := EscapeAll(w);
    if |w| > 0 {
      var c := w[0];
      var head := EscapeOf(c);
      assert e == head + EscapeAll(w[1..]);
      assert t[i + |head|..] == EscapeAll(w[1..]);
      EscapeDecodes(c);
      assert Plain(w[1..]) by {
        forall k | 0 <= k < |w[1..]| ensures w[1..][k] == w[k + 1] { }
      }
      WordOfEscaped(w[1..], t, i + |head|);
      if |head| == 1 {
        assert t[i] == c;
      } else {
        assert t[i] == '\\' && t[i + 1] == head[1];
      }
      assert [c] + w[1..] == w;
    } else {
      assert i == |t|;
    }
  }

  /** An unquoted argument without escapes is taken character for character. */
  lemma {:induction false} WordVerbatim(t: string, i: nat, j: nat)
    requires i <= j <= |t| && WordStop(t, j)
    requires forall k :: i <= k < j ==> !WordStop(t, k) && t[k] != '\\'
    ensures WordAt(t, i) == Ok((t[i..j], j))
    decreases j - i
  {
    if i < j {
      assert !WordStop(t, i) && t[i] != '\\';
      WordVerbatim(t, i + 1, j);
      assert WordAt(t, i) == Cons([t[i]], WordAt(t, i + 1));
      assert t[i..j] == [t[i]] + t[i + 1..j];
    } else {
      assert t[i..j] == [];
    }
  }

  /** So is the body of a quoted argument without escapes. */
  lemma {:induction false} QuoteVerbatim(t: string, i: nat, j: nat, q: char)
    requires i <= j < |t| && t[j] == q
    requires forall k :: i <= k < j ==> t[k] != q && t[k] != '\\'
    ensures QuoteBody(t, i, q) == Ok((t[i..j], j))
    decreases j - i
  {
    if i < j {
      assert t[i] != q && t[i] != '\\';
      QuoteVerbatim(t, i + 1, j, q);
      assert QuoteBody(t, i, q) == Cons([t[i]], QuoteBody(t, i + 1, q));
      assert t[i..j] == [t[i]] + t[i + 1..j];
    } else {
      assert t[i..j] == [];
    }
  }

  /** A short form of the example in the parser's own tests: flags after the dash,
      a word, a quoted argument holding a space, and a later dash word taken as an
      argument. */
  lemma ParseExample()
    ensures ParseText("-fg a \"b c\" -x")
            == Ok(([Flag("f"), Flag("g")], [Arg("a", false), Arg("b c", true), Arg("-x", false)]))
  {
    var t := "-fg a \"b c\" -x";
    ExampleFlags(t);
    ExampleArgs(t);
    assert t[0] == '-';
  }

  lemma ExampleFlags(t: string)
    requires t == "-fg a \"b c\" -x"
    ensures FlagsAt(t, 0) == ([Flag("f"), Flag("g")], 3)
  {
    assert !IsSpace(t[1]) && !IsSpace(t[2]) && IsSpace(t[3]);
    assert SpaceEnd(t, 1) == 1;
    var r := FlagRun(t, 1);
    FlagRunShape(t, 1);
    assert r.1 == 3;
    assert [t[1]] == "f" && [t[2]] == "g";
    assert r.0 == [Flag("f"), Flag("g")];
  }

  lemma ExampleArgs(t: string)
    requires t == "-fg a \"b c\" -x"
    ensures ArgsAt(t, 3) == Ok([Arg("a", false), Arg("b c", true), Arg("-x", false)])
  {
    ExampleMiddle(t);
    WordVerbatim(t, 4, 5);
    assert t[4..5] == "a";
    assert ArgsAt(t, 4) == ConsArg(Arg("a", false), ArgsAt(t, 5));
    assert IsSpace(t[3]) && !IsSpace(t[4]);
    assert SpaceEnd(t, 3) == 4;
    assert ArgsAt(t, 3) == ArgsAt(t, 4);
    assert [Arg("a", false)] + [Arg("b c", true), Arg("-x", false)] == [Arg("a", false), Arg("b c", true), Arg("-x", false)];
  }

  lemma ExampleMiddle(t: string)
    requires t == "-fg a \"b c\" -x"
    ensures ArgsAt(t, 5) == Ok([Arg("b c", true), Arg("-x", false)])
  {
    ExampleLast(t);
    assert IsSpace(t[11]) && !IsSpace(t[12]);
    assert SpaceEnd(t, 11) == 12;
    assert ArgsAt(t, 11) == ArgsAt(t, 12);
    QuoteVerbatim(t, 7, 10, '"');
    assert t[7..10] == "b c";
    assert t[6] == '"';
    assert QuoteAt(t, 6) == Ok((Arg("b c", true), 11));
    assert ArgsAt(t, 6) == ConsArg(Arg("b c", true), ArgsAt(t, 11));
    assert IsSpace(t[5]) && !IsSpace(t[6]);
    assert SpaceEnd(t, 5) == 6;
    assert ArgsAt(t, 5) == ArgsAt(t, 6);
    assert [Arg("b c", true)] + [Arg("-x", false)] == [Arg("b c", true), Arg("-x", false)];
  }

  lemma ExampleLast(t: string)
    requires t == "-fg a \"b c\" -x"
    ensures ArgsAt(t, 12) == Ok([Arg("-x", false)])
  {
    WordVerbatim(t, 12, 14);
    assert t[12..14] == "-x";
    assert t[12] == '-';
    assert ArgsAt(t, 14) == Ok([]);
    assert [Arg("-x", false)] + [] == [Arg("-x", false)];
  }

  /** The parser object: the text of the line and the read position. */
  class Parser {
    var text: string
    var index: nat

    /** `Parser(text)`. */
    constructor (t: string)
      ensures text == t && index == 0
    {
      text := t;
      index := 0;
    }

    /** `current_char`: the character at the read position, or None past the end. */
    function CurrentChar(): (c: Option<char>)
      reads this
      ensures c.Some? <==> index < |text|
      ensures c.Some? ==> c.value == text[index]
    {
      if index < |text| then Some(text[index]) else None
    }

    method Advance()
      modifies this
      ensures text == old(text) && index == old(index) + 1
    {
      index := index + 1;
    }

    method SkipWhitespace()
      modifies this
      ensures text == old(text) && index == SpaceEnd(text, old(index))
    {
      while CurrentChar().Some? && IsSpace(CurrentChar().value)
        invariant text == old(text) && old(index) <= index
        invariant SpaceEnd(text, index) == SpaceEnd(text, old(index))
        decreases |text| - index
      {
        Advance();
      }
    }

    method SkipComment()
      modifies this
      ensures text == old(text) && index == CommentEnd(text, old(index))
    {
      while CurrentChar().Some? && CurrentChar().value != '\n'
        invariant text == old(text) && old(index) <= index
        invariant CommentEnd(text, index) == CommentEnd(text, old(index))
        decreases |text| - index
      {
        Advance();
      }
      if CurrentChar() == Some('\n') {
        Advance();
      }
    }

    /** `escape_char`: steps onto the character after the backslash and decodes it. */
    method EscapeChar() returns (r: Result<char>)
      modifies this
      ensures text == old(text) && index == old(index) + 1
      ensures r == EscapeAt(text, old(index))
    {
      Advance();
      var c := CurrentChar();
      if c.Some? && Decode(c.value).Some? {
        r := Ok(Decode(c.value).value);
      } else {
        r := Err(TypeError);
      }
    }

    /** `ARG`. */
    method ReadArg() returns (r: Result<Leaf>)
      modifies this
      ensures text == old(text)
      ensures WordAt(text, old(index)).Err? ==> r == Err(WordAt(text, old(index)).error)
      ensures WordAt(text, old(index)).Ok? ==>
                r == Ok(Arg(WordAt(text, old(index)).value.0, false)) && index == WordAt(text, old(index)).value.1
    {
      var acc := "";
      ConsJoins("", "", WordAt(text, index));
      while CurrentChar().Some? && !IsSpace(CurrentChar().value) && CurrentChar().value != ':'
        invariant text == old(text) && old(index) <= index
        invariant Cons(acc, WordAt(text, index)) == WordAt(text, old(index))
        decreases |text| - index
      {
        ghost var before := acc;
        if text[index] == '\\' {
          var e := EscapeChar();
          if e.Err? {
            return Err(e.error);
          }
          acc := acc + [e.value];
        } else {
          acc := acc + [text[index]];
        }
        Advance();
        ConsJoins(before, acc[|before|..], WordAt(text, index));
        assert before + acc[|before|..] == acc;
      }
      assert WordAt(text, index) == Ok(("", index));
      assert acc + "" == acc;
      r := Ok(Arg(acc, false));
    }

    /** `QUOTE`, called with the read position on the opening quote. */
    method ReadQuote() returns (r: Result<Leaf>)
      requires index < |text|
      modifies this
      ensures text == old(text)
      ensures QuoteAt(text, old(index)).Err? ==> r == Err(QuoteAt(text, old(index)).error)
      ensures QuoteAt(text, old(index)).Ok? ==>
                r == Ok(QuoteAt(text, old(index)).value.0) && index == QuoteAt(text, old(index)).value.1
    {
      var q := text[index];
      Advance();
      var acc := "";
      ConsJoins("", "", QuoteBody(text, index, q));
      while CurrentChar() != Some(q)
        invariant text == old(text) && old(index) < index
        invariant Cons(acc, QuoteBody(text, index, q)) == QuoteBody(text, old(index) + 1, q)
        decreases |text| - index
      {
        if CurrentChar().None? {
          return Err(TypeError);
        }
        ghost var before := acc;
        if text[index] == '\\' {
          var e := EscapeChar();
          if e.Err? {
            return Err(e.error);
          }
          acc := acc + [e.value];
        } else {
          acc := acc + [text[index]];
        }
        Advance();
        ConsJoins(before, acc[|before|..], QuoteBody(text, index, q));
        assert before + acc[|before|..] == acc;
      }
      assert QuoteBody(text, index, q) == Ok(("", index));
      assert acc + "" == acc;
      Advance();
      var c := CurrentChar();
      if c.Some? && !IsSpace(c.value) && c.value != ':' {
        return Err(ParseError(QuoteFollowMessage + [c.value]));
      }
      r := Ok(Arg(acc, true));
    }

    /** `flags`, called with the read position on the dash. */
    method ReadFlags() returns (flags: seq<Leaf>)
      modifies this
      ensures text == old(text)
      ensures (flags, index) == FlagsAt(text, old(index))
    {
      Advance();
      if CurrentChar().Some? && IsSpace(CurrentChar().value) {
        SkipWhitespace();
      }
      flags := ReadFlagRun();
    }

    /** The loop of `flags`: one flag per character up to a space, `;` or the end. */
    method ReadFlagRun() returns (flags: seq<Leaf>)
      modifies this
      ensures text == old(text)
      ensures (flags, index) == FlagRun(text, old(index))
    {
      flags := [];
      FlagsJoinStep([], text, index);
      while CurrentChar().Some? && !IsSpace(CurrentChar().value) && CurrentChar().value != ';'
        invariant text == old(text) && old(index) <= index
        invariant FlagsJoin(flags, FlagRun(text, index)) == FlagRun(text, old(index))
        decreases |text| - index
      {
        FlagsJoinStep(flags, text, index);
        flags := flags + [Flag([text[index]])];
        Advance();
      }
      FlagsJoinStep(flags, text, index);
    }

    /** `args`: every argument up to the end of the text. */
    method ReadArgs() returns (r: Result<seq<Leaf>>)
      modifies this
      ensures text == old(text)
      ensures r == ArgsAt(text, old(index))
    {
      var args := [];
      AfterArgsJoins([], [], ArgsAt(text, index));
      while CurrentChar().Some?
        invariant text == old(text)
        invariant AfterArgs(args, ArgsAt(text, index)) == ArgsAt(text, old(index))
        decreases |text| - index
      {
        var c := CurrentChar().value;
        ghost var before := args;
        if IsSpace(c) {
          SkipWhitespace();
          continue;
        }
        if c == '#' {
          Advance();
          SkipComment();
          continue;
        }
        if c == ':' {
          Advance();
          args := args + [Arg(":", false)];
        } else if c == '"' || c == '\'' {
          var a := ReadQuote();
          if a.Err? {
            return Err(a.error);
          }
          args := args + [a.value];
        } else {
          var a := ReadArg();
          if a.Err? {
            return Err(a.error);
          }
          args := args + [a.value];
        }
        AfterArgsJoins(before, [args[|before|]], ArgsAt(text, index));
        assert before + [args[|before|]] == args;
      }
      assert args + [] == args;
      r := Ok(args);
    }

    /** `parse(text)`: starts over on the new text, so the result depends on the text
        alone. */
    method Parse(t: string) returns (r: Result<(seq<Leaf>, seq<Leaf>)>)
      modifies this
      ensures text == t
      ensures r == ParseText(t)
    {
      text := t;
      index := 0;
      var flags := [];
      if CurrentChar() == Some('-') {
        flags := ReadFlags();
      }
      var args := ReadArgs();
      r := WithFlags(flags, args);
    }
  }

  lemma ConsJoins(a: string, b: string, r: Result<(string, nat)>)
    ensures Cons(a, Cons(b, r)) == Cons(a + b, r)
    ensures Cons("", r) == r
  {
    if r.Ok? {
      assert a + (b + r.value.0) == (a + b) + r.value.0;
      assert "" + r.value.0 == r.value.0;
    }
  }

  lemma AfterArgsJoins(done: seq<Leaf>, more: seq<Leaf>, r: Result<seq<Leaf>>)
    ensures AfterArgs(done, AfterArgs(more, r)) == AfterArgs(done + more, r)
    ensures AfterArgs([], r) == r
    ensures |more| == 1 ==> AfterArgs(more, r) == ConsArg(more[0], r)
  {
    if r.Ok? {
      assert done + (more + r.value) == (done + more) + r.value;
      assert [] + r.value == r.value;
      if |more| == 1 {
        assert more == [more[0]];
      }
    }
  }

  /** The flags read so far in front of the run that remains. */
  function FlagsJoin(done: seq<Leaf>, r: (seq<Leaf>, nat)): (seq<Leaf>, nat) {
    (done + r.0, r.1)
  }

  lemma FlagsJoinStep(done: seq<Leaf>, t: string, i: nat)
    ensures FlagsJoin([], FlagRun(t, i)) == FlagRun(t, i)
    ensures i < |t| && !IsSpace(t[i]) && t[i] != ';' ==>
              FlagsJoin(done, FlagRun(t, i)) == FlagsJoin(done + [Flag([t[i]])], FlagRun(t, i + 1))
    ensures !(i < |t| && !IsSpace(t[i]) && t[i] != ';') ==> FlagsJoin(done, FlagRun(t, i)) == (done, i)
  {
    assert [] + FlagRun(t, i).0 == FlagRun(t, i).0;
    assert done + [] == done;
    if i < |t| && !IsSpace(t[i]) && t[i] != ';' {
      var rest := FlagRun(t, i + 1).0;
      assert done + ([Flag([t[i]])] + rest) == (done + [Flag([t[i]])]) + rest;
    }
  }

  /** The arguments read so far in front of what the rest of the text gives. */
  function AfterArgs(done: seq<Leaf>, r: Result<seq<Leaf>>): Result<seq<Leaf>> {
    match r
    case Ok(rest) => Ok(done + rest)
    case Err(e) => Err(e)
  }
}
