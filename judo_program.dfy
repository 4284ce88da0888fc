/**
 * The older recursive-descent parser of the Judo language: it pulls tokens
 * from the lexer one at a time and builds a program of commands, each a CMD
 * token followed by its FLAG tokens and then its ARG tokens, commands being
 * separated by EOC tokens.
 *
 * The specification functions work on a cursor (the lexer's state and the
 * token under consideration). An independent grammar over the finished list
 * of tokens says what a program is, and the streaming parser is proved to
 * agree with it on every text that lexes. The `Parser` class keeps a lexer
 * object and the current token in fields, like the source.
 */
module JudoProgram {
  import opened Wrappers
  import opened JudoTokens
  import opened JudoNodes
  import opened JudoLex

  /** What the parser holds: the lexer's state and the current token. */
  datatype Cursor = Cursor(lex: Lex, current: Token)

  const EatMessage := "Parser.eat encountered invalid type: "
  const EndMessage := "Error during Parser.parse. EOF node should be encountered but "

  /** A token's text. CMD, FLAG and ARG tokens from the lexer always have one
      (`JudoLex.NextTokenCarries`); a missing one reads as empty. */
  function ValueText(tok: Token): string {
    if tok.value.Some? then tok.value.value else ""
  }

  function Rank(c: Cursor): nat {
    if c.current.ttype == EOF then 0 else 1
  }

  /** `c'` is further on than `c` over the same text: the lexer read more of the
      text, or used up a queued token, or the current token became EOF. */
  predicate Before(c': Cursor, c: Cursor) {
    var a, a' := |c.lex.text| - c.lex.index, |c'.lex.text| - c'.lex.index;
    c'.lex.text == c.lex.text &&
    ((a' < a && 0 <= a) ||
     (a' == a && (|c'.lex.pending| < |c.lex.pending| ||
                  (|c'.lex.pending| == |c.lex.pending| && Rank(c') < Rank(c)))))
  }

  /** `get_next_token`: the next token becomes the current one. */
  function Advance(c: Cursor): (r: Result<Cursor>)
    ensures r.Ok? && c.current.ttype != EOF ==> Before(r.value, c)
    ensures r.Ok? ==> r.value.lex.aliases == c.lex.aliases
  {
    match NextToken(c.lex)
    case Err(e) => Err(e)
    case Ok((tok, L)) => Ok(Cursor(L, tok))
  }

  /** `eat`: the current token when it has the expected type, with the cursor moved
      on; otherwise a ParseError. */
  function EatAt(c: Cursor, tt: TokenType): (r: Result<(Token, Cursor)>)
    ensures c.current.ttype != tt ==> r == Err(ParseError(EatMessage))
    ensures c.current.ttype == tt ==> (r.Ok? <==> Advance(c).Ok?)
    ensures r.Ok? ==> r.value.0 == c.current && r.value.1 == Advance(c).value
    ensures r.Ok? && tt != EOF ==> Before(r.value.1, c)
  {
    if c.current.ttype == tt then
      match Advance(c)
      case Err(e) => Err(e)
      case Ok(c') => Ok((c.current, c'))
    else
      Err(ParseError(EatMessage))
  }

  function Prepend<T>(x: T, r: Result<(seq<T>, Cursor)>): Result<(seq<T>, Cursor)> {
    match r
    case Err(e) => Err(e)
    case Ok((xs, c)) => Ok(([x] + xs, c))
  }

  /** The `flag()` loop of `command`: one Flag node per FLAG token. */
  function FlagNodes(c: Cursor): (r: Result<(seq<Leaf>, Cursor)>)
    ensures r.Ok? ==> (r.value.1 == c || Before(r.value.1, c)) && r.value.1.current.ttype != FLAG
    ensures r.Ok? ==> forall i :: 0 <= i < |r.value.0| ==> r.value.0[i].Flag?
    decreases |c.lex.text| - c.lex.index, |c.lex.pending|, Rank(c)
  {
    if c.current.ttype != FLAG then Ok(([], c))
    else
      match EatAt(c, FLAG)
      case Err(e) => Err(e)
      case Ok((tok, c')) => Prepend(Flag(ValueText(tok)), FlagNodes(c'))
  }

  /** The `argument()` loop of `command`: one unquoted Arg node per ARG token. */
  function ArgNodes(c: Cursor): (r: Result<(seq<Leaf>, Cursor)>)
    ensures r.Ok? ==> (r.value.1 == c || Before(r.value.1, c)) && r.value.1.current.ttype != ARG
    ensures r.Ok? ==> forall i :: 0 <= i < |r.value.0| ==> r.value.0[i].Arg? && !r.value.0[i].quoted
    decreases |c.lex.text| - c.lex.index, |c.lex.pending|, Rank(c)
  {
    if c.current.ttype != ARG then Ok(([], c))
    else
      match EatAt(c, ARG)
      case Err(e) => Err(e)
      case Ok((tok, c')) => Prepend(Arg(ValueText(tok), false), ArgNodes(c'))
  }

  /** `command`: a CMD token, then every FLAG token, then every ARG token. The
      nodes it builds always pass the node class's own checks. */
  function CommandAt(c: Cursor): (r: Result<(Command, Cursor)>)
    ensures c.current.ttype != CMD ==> r == Err(ParseError(EatMessage))
    ensures r.Ok? ==> Before(r.value.1, c) && r.value.1.current.ttype != ARG
    ensures r.Ok? ==> r.value.0.func == ValueText(c.current) && ValidCommand(r.value.0)
  {
    match EatAt(c, CMD)
    case Err(e) => Err(e)
    case Ok((tok, c1)) =>
      match FlagNodes(c1)
      case Err(e) => Err(e)
      case Ok((flags, c2)) =>
        match ArgNodes(c2)
        case Err(e) => Err(e)
        case Ok((args, c3)) => Ok((Command(ValueText(tok), flags, args), c3))
  }

  /** `if current is EOC: eat(EOC)`, after each command. */
  function SkipEoc(c: Cursor): (r: Result<Cursor>)
    ensures c.current.ttype != EOC ==> r == Ok(c)
    ensures c.current.ttype == EOC ==> r == (match Advance(c) case Ok(c') => Ok(c') case Err(e) => Err(e))
    ensures r.Ok? ==> r.value == c || Before(r.value, c)
  {
    if c.current.ttype == EOC then
      match EatAt(c, EOC)
      case Err(e) => Err(e)
      case Ok((_, c')) => Ok(c')
    else
      Ok(c)
  }

  /** One round of the `program` loop: a command, then the EOC after it if any. */
  function CommandStep(c: Cursor): (r: Result<(Command, Cursor)>)
    ensures c.current.ttype != CMD ==> r == Err(ParseError(EatMessage))
    ensures r.Ok? ==> Before(r.value.1, c) && ValidCommand(r.value.0)
  {
    match CommandAt(c)
    case Err(e) => Err(e)
    case Ok((cmd, c1)) =>
      match SkipEoc(c1)
      case Err(e) => Err(e)
      case Ok(c2) => Ok((cmd, c2))
  }

  /** `program`: commands until the current token is EOF. */
  function ProgramFrom(c: Cursor): (r: Result<(seq<Command>, Cursor)>)
    ensures r.Ok? ==> r.value.1.current.ttype == EOF
    ensures r.Ok? ==> forall i :: 0 <= i < |r.value.0| ==> ValidCommand(r.value.0[i])
    ensures c.current.ttype == EOF ==> r == Ok(([], c))
    decreases |c.lex.text| - c.lex.index, |c.lex.pending|, Rank(c)
  {
    if c.current.ttype == EOF then Ok(([], c))
    else
      match CommandStep(c)
      case Err(e) => Err(e)
      case Ok((cmd, c')) => Prepend(cmd, ProgramFrom(c'))
  }

  /** How `str` shows a token type: the enum's class name and member name. */
  function ShowType(tt: TokenType): string {
    "TokenType." + TypeName(tt)
  }

  /** `parse` on the text already loaded: the program, then the check that EOF
      was reached. */
  function ParseFrom(c: Cursor): (r: Result<Program>)
  {
    match ProgramFrom(c)
    case Err(e) => Err(e)
    case Ok((cmds, c')) =>
      if c'.current.ttype != EOF then Err(ParseError(EndMessage + ShowType(c'.current.ttype) + " was found"))
      else Ok(Program(cmds))
  }

  /** The closing EOF check of `parse` can never fail: `program` only returns once
      the current token is EOF, so `parse` fails exactly when `program` does. */
  lemma EndCheckNeverFails(c: Cursor)
    ensures ParseFrom(c).Ok? <==> ProgramFrom(c).Ok?
    ensures ParseFrom(c).Ok? ==> ParseFrom(c).value.commands == ProgramFrom(c).value.0
    ensures ParseFrom(c).Err? ==> ParseFrom(c).error == ProgramFrom(c).error
  {
  }

  /** `Parser(text)`: a fresh lexer with an empty alias table, and its first token. */
  function Init(t: string): (r: Result<Cursor>)
    ensures r.Ok? ==> r.value.lex.aliases == map[] && r.value.lex.text == t
  {
    match NextToken(Start(t, map[]))
    case Err(e) => Err(e)
    case Ok((tok, L)) => Ok(Cursor(L, tok))
  }

  /** `parse(text)`: a new lexer on the text, then the program. */
  function ParseText(t: string): (r: Result<Program>)
    ensures |t| == 0 ==> r == Ok(Program([]))
  {
    match Init(t)
    case Err(e) => Err(e)
    case Ok(c) => ParseFrom(c)
  }

  // The grammar over a finished token list, position by position.

  /** The FLAG tokens from position `p` on, and the position after them. */
  function ListFlags(ts: seq<Token>, p: nat): (r: (seq<Leaf>, nat))
    requires p <= |ts|
    ensures p <= r.1 <= |ts| && |r.0| == r.1 - p
    ensures forall k :: p <= k < r.1 ==> ts[k].ttype == FLAG && r.0[k - p] == Flag(ValueText(ts[k]))
    ensures r.1 == |ts| || ts[r.1].ttype != FLAG
    decreases |ts| - p
  {
    if p < |ts| && ts[p].ttype == FLAG then
      var rest := ListFlags(ts, p + 1);
      ([Flag(ValueText(ts[p]))] + rest.0, rest.1)
    else
      ([], p)
  }

  /** The ARG tokens from position `p` on, and the position after them. */
  function ListArgs(ts: seq<Token>, p: nat): (r: (seq<Leaf>, nat))
    requires p <= |ts|
    ensures p <= r.1 <= |ts| && |r.0| == r.1 - p
    ensures forall k :: p <= k < r.1 ==> ts[k].ttype == ARG && r.0[k - p] == Arg(ValueText(ts[k]), false)
    ensures r.1 == |ts| || ts[r.1].ttype != ARG
    decreases |ts| - p
  {
    if p < |ts| && ts[p].ttype == ARG then
      var rest := ListArgs(ts, p + 1);
      ([Arg(ValueText(ts[p]), false)] + rest.0, rest.1)
    else
      ([], p)
  }

  /** A command at position `p`: CMD, FLAG*, ARG*. */
  function ListCommand(ts: seq<Token>, p: nat): (r: Result<(Command, nat)>)
    requires p <= |ts|
    ensures r.Ok? <==> p < |ts| && ts[p].ttype == CMD
    ensures r.Err? ==> r.error == ParseError(EatMessage)
    ensures r.Ok? ==> p < r.value.1 <= |ts|
  {
    if p < |ts| && ts[p].ttype == CMD then
      var (flags, p1) := ListFlags(ts, p + 1);
      var (args, p2) := ListArgs(ts, p1);
      Ok((Command(ValueText(ts[p]), flags, args), p2))
    else
      Err(ParseError(EatMessage))
  }

  /** Where the next command starts after the command at `p`: past one EOC, if
      there is one. */
  function ListStep(ts: seq<Token>, p: nat): (q: nat)
    requires p <= |ts| && ListCommand(ts, p).Ok?
    ensures p < q <= |ts|
  {
    var p1 := ListCommand(ts, p).value.1;
    if p1 < |ts| && ts[p1].ttype == EOC then p1 + 1 else p1
  }

  /** Commands from position `p`, each optionally closed by one EOC, until EOF. */
  function ListProgram(ts: seq<Token>, p: nat): (r: Result<seq<Command>>)
    requires p <= |ts|
    decreases |ts| - p
  {
    if p == |ts| || ts[p].ttype == EOF then Ok([])
    else
      match ListCommand(ts, p)
      case Err(e) => Err(e)
      case Ok((cmd, _)) =>
        match ListProgram(ts, ListStep(ts, p))
        case Err(e) => Err(e)
        case Ok(cmds) => Ok([cmd] + cmds)
  }

  function ListParse(ts: seq<Token>): Result<Program> {
    match ListProgram(ts, 0)
    case Err(e) => Err(e)
    case Ok(cmds) => Ok(Program(cmds))
  }

  // The streaming parser against the grammar.

  /** The tokens still to come: the current one, then all the lexer will give. */
  function Stream(c: Cursor): Result<seq<Token>> {
    if c.current == EOFToken then Ok([EOFToken]) else TokensPrefix(c.current, AllTokens(c.lex))
  }

  /** Moving the cursor on takes the current token off the tokens still to come. */
  lemma StreamStep(c: Cursor)
    requires c.current.ttype != EOF && Advance(c).Ok?
    ensures Stream(c) == TokensPrefix(c.current, Stream(Advance(c).value))
  {
  }

  /** The cursor stands at position `p` of the token list `ts`. */
  predicate Synced(c: Cursor, ts: seq<Token>, p: nat) {
    p < |ts| && Stream(c) == Ok(ts[p..])
  }

  lemma AdvanceSynced(c: Cursor, ts: seq<Token>, p: nat)
    requires Synced(c, ts, p) && c.current.ttype != EOF
    ensures ts[p] == c.current
    ensures Advance(c).Ok? && Synced(Advance(c).value, ts, p + 1)
  {
    assert c.current != EOFToken;
    var rest := AllTokens(c.lex);
    assert rest.Ok? && [c.current] + rest.value == ts[p..];
    assert ts[p..][1..] == ts[p + 1..];
    assert ([c.current] + rest.value)[1..] == rest.value;
    StreamStep(c);
  }

  lemma {:induction false} FlagsSynced(c: Cursor, ts: seq<Token>, p: nat)
    requires Synced(c, ts, p)
    ensures FlagNodes(c).Ok? && FlagNodes(c).value.0 == ListFlags(ts, p).0
    ensures Synced(FlagNodes(c).value.1, ts, ListFlags(ts, p).1)
    decreases |c.lex.text| - c.lex.index, |c.lex.pending|, Rank(c)
  {
    assert ts[p] == c.current by {
      if c.current != EOFToken {
        assert [c.current] + AllTokens(c.lex).value == ts[p..];
      }
    }
    if c.current.ttype == FLAG {
      AdvanceSynced(c, ts, p);
      FlagsSynced(Advance(c).value, ts, p + 1);
    }
  }

  lemma {:induction false} ArgsSynced(c: Cursor, ts: seq<Token>, p: nat)
    requires Synced(c, ts, p)
    ensures ArgNodes(c).Ok? && ArgNodes(c).value.0 == ListArgs(ts, p).0
    ensures Synced(ArgNodes(c).value.1, ts, ListArgs(ts, p).1)
    decreases |c.lex.text| - c.lex.index, |c.lex.pending|, Rank(c)
  {
    assert ts[p] == c.current by {
      if c.current != EOFToken {
        assert [c.current] + AllTokens(c.lex).value == ts[p..];
      }
    }
    if c.current.ttype == ARG {
      AdvanceSynced(c, ts, p);
      ArgsSynced(Advance(c).value, ts, p + 1);
    }
  }

  lemma CurrentIsNext(c: Cursor, ts: seq<Token>, p: nat)
    requires Synced(c, ts, p)
    ensures ts[p] == c.current
  {
    if c.current != EOFToken {
      assert [c.current] + AllTokens(c.lex).value == ts[p..];
    }
  }

  lemma CommandSynced(c: Cursor, ts: seq<Token>, p: nat)
    requires Synced(c, ts, p)
    ensures CommandAt(c).Ok? == ListCommand(ts, p).Ok?
    ensures CommandAt(c).Err? ==> CommandAt(c) == Err(ParseError(EatMessage))
    ensures CommandAt(c).Ok? ==> CommandAt(c).value.0 == ListCommand(ts, p).value.0 &&
                                 Synced(CommandAt(c).value.1, ts, ListCommand(ts, p).value.1)
  {
    CurrentIsNext(c, ts, p);
    if c.current.ttype == CMD {
      AdvanceSynced(c, ts, p);
      var c1 := Advance(c).value;
      FlagsSynced(c1, ts, p + 1);
      var (flags, c2) := FlagNodes(c1).value;
      ArgsSynced(c2, ts, ListFlags(ts, p + 1).1);
    }
  }

  lemma EocSynced(c: Cursor, ts: seq<Token>, p: nat)
    requires Synced(c, ts, p)
    ensures SkipEoc(c).Ok?
    ensures Synced(SkipEoc(c).value, ts, if ts[p].ttype == EOC then p + 1 else p)
  {
    CurrentIsNext(c, ts, p);
    if c.current.ttype == EOC {
      AdvanceSynced(c, ts, p);
    }
  }

  lemma StepSynced(c: Cursor, ts: seq<Token>, p: nat)
    requires Synced(c, ts, p)
    ensures CommandStep(c).Ok? == ListCommand(ts, p).Ok?
    ensures CommandStep(c).Err? ==> CommandStep(c) == Err(ParseError(EatMessage))
    ensures CommandStep(c).Ok? ==> CommandStep(c).value.0 == ListCommand(ts, p).value.0 &&
                                   Synced(CommandStep(c).value.1, ts, ListStep(ts, p))
  {
    CommandSynced(c, ts, p);
    if CommandAt(c).Ok? {
      var (cmd, c1) := CommandAt(c).value;
      var p1 := ListCommand(ts, p).value.1;
      EocSynced(c1, ts, p1);
      var q := if ts[p1].ttype == EOC then p1 + 1 else p1;
      assert ListStep(ts, p) == q;
      assert CommandStep(c) == Ok((cmd, SkipEoc(c1).value));
    }
  }

  lemma {:induction false} ProgramSynced(c: Cursor, ts: seq<Token>, p: nat)
    requires Synced(c, ts, p)
    ensures match ProgramFrom(c)
            case Ok((cmds, _)) => ListProgram(ts, p) == Ok(cmds)
            case Err(e) => ListProgram(ts, p) == Err(e)
    decreases |c.lex.text| - c.lex.index, |c.lex.pending|, Rank(c)
  {
    CurrentIsNext(c, ts, p);
    if c.current.ttype != EOF {
      StepSynced(c, ts, p);
      if CommandStep(c).Ok? {
        ProgramSynced(CommandStep(c).value.1, ts, ListStep(ts, p));
      }
    }
  }

  /** On every text the lexer reads to its end, parsing while lexing gives what the
      grammar gives on the whole token list. */
  lemma ParseFollowsGrammar(t: string)
    requires AllTokens(Start(t, map[])).Ok?
    ensures ParseText(t) == ListParse(AllTokens(Start(t, map[])).value)
  {
    var ts := AllTokens(Start(t, map[])).value;
    var c := Init(t).value;
    assert Stream(c) == AllTokens(Start(t, map[]));
    ProgramSynced(c, ts, 0);
    assert ts[0..] == ts;
  }

  /** The other direction: the parser only succeeds on a text the lexer reads to its
      end, since it asks for tokens until EOF. */
  lemma ParseLexesAll(t: string)
    requires ParseText(t).Ok?
    ensures AllTokens(Start(t, map[])).Ok?
  {
    var c := Init(t).value;
    NextTokenCarries(Start(t, map[]));
    ProgramLexes(c);
    assert Stream(c) == AllTokens(Start(t, map[]));
  }

  /** The lexer state stays well formed and every current token has its value. */
  predicate Sound(c: Cursor) {
    WellFormed(c.lex) && Carries(c.current)
  }

  lemma AdvanceLexes(c: Cursor)
    requires Sound(c) && c.current.ttype != EOF && Advance(c).Ok?
    ensures Sound(Advance(c).value)
    ensures Stream(c).Ok? <==> Stream(Advance(c).value).Ok?
  {
    NextTokenCarries(c.lex);
    StreamStep(c);
  }

  lemma {:induction false} FlagsLexes(c: Cursor)
    requires Sound(c) && FlagNodes(c).Ok?
    ensures Sound(FlagNodes(c).value.1)
    ensures Stream(c).Ok? <==> Stream(FlagNodes(c).value.1).Ok?
    decreases |c.lex.text| - c.lex.index, |c.lex.pending|, Rank(c)
  {
    if c.current.ttype == FLAG {
      AdvanceLexes(c);
      FlagsLexes(Advance(c).value);
    }
  }

  lemma {:induction false} ArgsLexes(c: Cursor)
    requires Sound(c) && ArgNodes(c).Ok?
    ensures Sound(ArgNodes(c).value.1)
    ensures Stream(c).Ok? <==> Stream(ArgNodes(c).value.1).Ok?
    decreases |c.lex.text| - c.lex.index, |c.lex.pending|, Rank(c)
  {
    if c.current.ttype == ARG {
      AdvanceLexes(c);
      ArgsLexes(Advance(c).value);
    }
  }

  lemma {:induction false} ProgramLexes(c: Cursor)
    requires Sound(c) && ProgramFrom(c).Ok?
    ensures Stream(c).Ok?
    decreases |c.lex.text| - c.lex.index, |c.lex.pending|, Rank(c)
  {
    if c.current.ttype != EOF {
      AdvanceLexes(c);
      var c1 := Advance(c).value;
      FlagsLexes(c1);
      var c2 := FlagNodes(c1).value.1;
      ArgsLexes(c2);
      var c3 := ArgNodes(c2).value.1;
      if c3.current.ttype == EOC {
        AdvanceLexes(c3);
      }
      ProgramLexes(SkipEoc(c3).value);
    } else {
      assert c.current == EOFToken;
    }
  }

  /** The parser's own example: `run -fg echo` is one command with two flags and
      one argument. */
  lemma ParseExample(t: string)
    requires t == "run -fg echo"
    ensures ParseText(t) == Ok(Program([Command("run", [Flag("f"), Flag("g")], [Arg("echo", false)])]))
  {
    RunFlagsExample(t);
    ParseFollowsGrammar(t);
    GrammarExample([Token(CMD, Some("run")), Token(FLAG, Some("f")), Token(FLAG, Some("g")), Token(ARG, Some("echo")), EOFToken]);
  }

  lemma GrammarExample(ts: seq<Token>)
    requires ts == [Token(CMD, Some("run")), Token(FLAG, Some("f")), Token(FLAG, Some("g")), Token(ARG, Some("echo")), EOFToken]
    ensures ListParse(ts) == Ok(Program([Command("run", [Flag("f"), Flag("g")], [Arg("echo", false)])]))
  {
    assert ListFlags(ts, 3) == ([], 3);
    assert [Flag("g")] + [] == [Flag("g")];
    assert [Flag("f")] + [Flag("g")] == [Flag("f"), Flag("g")];
    assert [Arg("echo", false)] + [] == [Arg("echo", false)];
    assert ListFlags(ts, 2) == ([Flag("g")], 3);
    assert ListFlags(ts, 1) == ([Flag("f"), Flag("g")], 3);
    assert ListArgs(ts, 4) == ([], 4);
    assert ListArgs(ts, 3) == ([Arg("echo", false)], 4);
    assert ListCommand(ts, 0) == Ok((Command("run", [Flag("f"), Flag("g")], [Arg("echo", false)]), 4));
    assert ListStep(ts, 0) == 4;
    assert ListProgram(ts, 4) == Ok([]);
    var cmd := Command("run", [Flag("f"), Flag("g")], [Arg("echo", false)]);
    assert [cmd] + [] == [cmd];
  }

  /** `Parser("run else")` stands on the command token. */
  lemma FirstTokenExample(t: string)
    requires t == "run else"
    ensures Init(t) == Ok(Cursor(Lex(t, 3, false, [], map[]), Token(CMD, Some("run"))))
  {
    ScanCommand(Start(t, map[]), 3);
    assert t[0..3] == "run";
  }

  /** `eat` on `run else`: eating an ARG first fails, eating the CMD yields it. */
  lemma EatExample(t: string)
    requires t == "run else"
    ensures Init(t).Ok? && EatAt(Init(t).value, ARG) == Err(ParseError(EatMessage))
    ensures EatAt(Init(t).value, CMD).Ok? && EatAt(Init(t).value, CMD).value.0 == Token(CMD, Some("run"))
  {
    FirstTokenExample(t);
    var L := Lex(t, 3, false, [], map[]);
    ScanSkipsSpace(L, 4);
    ScanArgument(L.(index := 4), 8);
    assert NextToken(L) == Scan(L) == Scan(L.(index := 4));
  }

  class Parser {
    var lexer: Lexer
    var current: Token

    function State(): Cursor
      reads this, lexer
    {
      Cursor(lexer.State(), current)
    }

    constructor Of(lx: Lexer, tok: Token)
      ensures lexer == lx && current == tok
    {
      lexer, current := lx, tok;
    }

    /** `Parser(text)`. */
    static method Create(t: string) returns (r: Result<Parser>)
      ensures match Init(t)
              case Ok(c) => r.Ok? && fresh(r.value) && fresh(r.value.lexer) && r.value.State() == c
              case Err(e) => r == Err(e)
    {
      var lx := new Lexer(t, map[]);
      var first := lx.GetNextToken();
      if first.Err? {
        return Err(first.error);
      }
      var p := new Parser.Of(lx, first.value);
      r := Ok(p);
    }

    /** `new(text)`: the source re-runs its constructor, so the lexer is a new one
        and the alias table of the old one is gone. */
    method New(t: string) returns (r: Result<()>)
      modifies this
      ensures fresh(lexer)
      ensures match Init(t)
              case Ok(c) => r == Ok(()) && State() == c
              case Err(e) => r == Err(e)
    {
      lexer := new Lexer(t, map[]);
      var first := lexer.GetNextToken();
      if first.Err? {
        return Err(first.error);
      }
      current := first.value;
      r := Ok(());
    }

    /** `eat`. */
    method Eat(tt: TokenType) returns (r: Result<Token>)
      modifies this, lexer
      ensures lexer == old(lexer)
      ensures match EatAt(old(State()), tt)
              case Ok((tok, c)) => r == Ok(tok) && State() == c
              case Err(e) => r == Err(e)
    {
      var old_token := current;
      if current.ttype == tt {
        var next := lexer.GetNextToken();
        if next.Err? {
          return Err(next.error);
        }
        current := next.value;
        r := Ok(old_token);
      } else {
        r := Err(ParseError(EatMessage));
      }
    }

    /** `flag`. */
    method ReadFlag() returns (r: Result<Leaf>)
      modifies this, lexer
      ensures lexer == old(lexer)
      ensures match EatAt(old(State()), FLAG)
              case Ok((tok, c)) => r == Ok(Flag(ValueText(tok))) && State() == c
              case Err(e) => r == Err(e)
    {
      var tok := Eat(FLAG);
      if tok.Err? {
        return Err(tok.error);
      }
      var t := tok.value;
      r := Ok(Flag(ValueText(t)));
    }

    /** `argument`. */
    method ReadArgument() returns (r: Result<Leaf>)
      modifies this, lexer
      ensures lexer == old(lexer)
      ensures match EatAt(old(State()), ARG)
              case Ok((tok, c)) => r == Ok(Arg(ValueText(tok), false)) && State() == c
              case Err(e) => r == Err(e)
    {
      var tok := Eat(ARG);
      if tok.Err? {
        return Err(tok.error);
      }
      var t := tok.value;
      r := Ok(Arg(ValueText(t), false));
    }

    /** The flag loop of `command`. */
    method ReadFlags() returns (r: Result<seq<Leaf>>)
      modifies this, lexer
      ensures lexer == old(lexer)
      ensures match FlagNodes(old(State()))
              case Ok((flags, c)) => r == Ok(flags) && State() == c
              case Err(e) => r == Err(e)
    {
      var flags: seq<Leaf> := [];
      JoinedNil(FlagNodes(State()));
      while current.ttype == FLAG
        invariant lexer == old(lexer)
        invariant Joined(flags, FlagNodes(State())) == FlagNodes(old(State()))
        decreases |lexer.text| - lexer.index, |lexer.pending|, Rank(State())
      {
        var f := ReadFlag();
        if f.Err? {
          return Err(f.error);
        }
        var leaf := f.value;
        JoinedStep(flags, leaf, FlagNodes(State()));
        flags := flags + [leaf];
      }
      JoinedDone(flags, State());
      r := Ok(flags);
    }

    /** The argument loop of `command`. */
    method ReadArgs() returns (r: Result<seq<Leaf>>)
      modifies this, lexer
      ensures lexer == old(lexer)
      ensures match ArgNodes(old(State()))
              case Ok((args, c)) => r == Ok(args) && State() == c
              case Err(e) => r == Err(e)
    {
      var args: seq<Leaf> := [];
      JoinedNil(ArgNodes(State()));
      while current.ttype == ARG
        invariant lexer == old(lexer)
        invariant Joined(args, ArgNodes(State())) == ArgNodes(old(State()))
        decreases |lexer.text| - lexer.index, |lexer.pending|, Rank(State())
      {
        var a := ReadArgument();
        if a.Err? {
          return Err(a.error);
        }
        var leaf := a.value;
        JoinedStep(args, leaf, ArgNodes(State()));
        args := args + [leaf];
      }
      JoinedDone(args, State());
      r := Ok(args);
    }

    /** `command`. */
    method ReadCommand() returns (r: Result<Command>)
      modifies this, lexer
      ensures lexer == old(lexer)
      ensures match CommandAt(old(State()))
              case Ok((cmd, c)) => r == Ok(cmd) && State() == c
              case Err(e) => r == Err(e)
    {
      var tok := Eat(CMD);
      if tok.Err? {
        return Err(tok.error);
      }
      var flags := ReadFlags();
      if flags.Err? {
        return Err(flags.error);
      }
      var args := ReadArgs();
      if args.Err? {
        return Err(args.error);
      }
      r := Ok(Command(ValueText(tok.value), flags.value, args.value));
    }

    /** A round of the `program` loop: `command`, then `eat(EOC)` if the current
        token is EOC. */
    method ReadStep() returns (r: Result<Command>)
      modifies this, lexer
      ensures lexer == old(lexer)
      ensures match CommandStep(old(State()))
              case Ok((cmd, c)) => r == Ok(cmd) && State() == c
              case Err(e) => r == Err(e)
    {
      var cmd := ReadCommand();
      if cmd.Err? {
        return Err(cmd.error);
      }
      if current.ttype == EOC {
        var e := Eat(EOC);
        if e.Err? {
          return Err(e.error);
        }
      }
      r := cmd;
    }

    /** `program`. */
    method ReadProgram() returns (r: Result<Program>)
      modifies this, lexer
      ensures lexer == old(lexer)
      ensures match ProgramFrom(old(State()))
              case Ok((cmds, c)) => r == Ok(Program(cmds)) && State() == c
              case Err(e) => r == Err(e)
    {
      var commands: seq<Command> := [];
      JoinedNil(ProgramFrom(State()));
      while current.ttype != EOF
        invariant lexer == old(lexer)
        invariant Joined(commands, ProgramFrom(State())) == ProgramFrom(old(State()))
        decreases |lexer.text| - lexer.index, |lexer.pending|, Rank(State())
      {
        var cmd := ReadStep();
        if cmd.Err? {
          return Err(cmd.error);
        }
        JoinedStep(commands, cmd.value, ProgramFrom(State()));
        commands := commands + [cmd.value];
      }
      JoinedDone(commands, State());
      r := Ok(Program(commands));
    }

    /** `parse(text)`: with a text, a new lexer on it first; without one, the text
        already loaded. */
    method Parse(text: Option<string>) returns (r: Result<Program>)
      modifies this, lexer
      ensures text.Some? ==> r == ParseText(text.value)
      ensures text.None? ==> r == ParseFrom(old(State()))
    {
      if text.Some? {
        var n := New(text.value);
        if n.Err? {
          return Err(n.error);
        }
      }
      var node := ReadProgram();
      if node.Err? {
        return Err(node.error);
      }
      if current.ttype != EOF {
        return Err(ParseError(EndMessage + ShowType(current.ttype) + " was found"));
      }
      r := node;
    }
  }

  /** The nodes collected so far, put in front of what the rest of a loop yields. */
  function Joined<T>(done: seq<T>, r: Result<(seq<T>, Cursor)>): Result<(seq<T>, Cursor)> {
    match r
    case Err(e) => Err(e)
    case Ok((xs, c)) => Ok((done + xs, c))
  }

  lemma JoinedNil<T>(r: Result<(seq<T>, Cursor)>)
    ensures Joined([], r) == r
  {
    if r.Ok? {
      assert [] + r.value.0 == r.value.0;
    }
  }

  lemma JoinedDone<T>(done: seq<T>, c: Cursor)
    ensures Joined(done, Ok(([], c))) == Ok((done, c))
  {
    assert done + [] == done;
  }

  lemma JoinedStep<T>(done: seq<T>, x: T, r: Result<(seq<T>, Cursor)>)
    ensures Joined(done, Prepend(x, r)) == Joined(done + [x], r)
  {
    if r.Ok? {
      assert done + ([x] + r.value.0) == (done + [x]) + r.value.0;
    }
  }
}
