/**
 * The older Judo front end's lexer: it breaks one text into CMD, FLAG, ARG,
 * EOC and EOF tokens, decoding escapes, skipping comments, splitting the flag
 * section into one token per character and splicing in user aliases.
 *
 * The specification functions read the text from a position (the readers) or
 * act on a whole lexer state `Lex` (the steps of `get_next_token`); the `Lexer`
 * class keeps the same state in fields, and each of its methods is proved to
 * do what the function of the same step says.
 */
module JudoLex {
  import opened Wrappers
  import opened PyStr
  import opened JudoTokens
  import JudoParse

  /** The alias table: a name and the tokens its text was lexed into. */
  type Aliases = map<string, seq<Token>>

  /** The lexer's fields: the text, the read position, whether the next word is a
      command, the queue of tokens already made (`token_array`) and the alias table. */
  datatype Lex = Lex(text: string, index: nat, firstWord: bool, pending: seq<Token>, aliases: Aliases)

  const EOFToken := Token(EOF, None)

  const EscapeMessage := "Unsupported escape character encountered: \\"

  const AliasMessage := "Error Occured in Lexer.resolve_alias. Alias passed in not in alias table."

  /** A fresh lexer on `t` over the table `table`. */
  function Start(t: string, table: Aliases): Lex {
    Lex(t, 0, true, [], table)
  }

  /** `current_char()` at `i`: None past the end, the character itself unless it is
      a backslash, otherwise the escape decoded; a backslash at the very end reads
      past the text, and any other escape is refused. */
  function CharAt(t: string, i: nat): (r: Result<Option<char>>)
    ensures r == Ok(None) <==> i >= |t|
    ensures i < |t| && t[i] != '\\' ==> r == Ok(Some(t[i]))
    ensures i < |t| && t[i] == '\\' ==> (r.Ok? <==> i + 1 < |t| && t[i + 1] in "nt\\\"'")
    ensures i < |t| && t[i] == '\\' && r.Ok? ==> r.value == JudoParse.Decode(t[i + 1])
    ensures r.Err? ==> (i + 1 >= |t| && r.error == IndexError) || (i + 1 < |t| && r.error == LexerError(EscapeMessage + [t[i + 1]]))
  {
    if i >= |t| then Ok(None)
    else if t[i] != '\\' then Ok(Some(t[i]))
    else if i + 1 >= |t| then Err(IndexError)
    else
      match JudoParse.Decode(t[i + 1])
      case Some(c) => Ok(Some(c))
      case None => Err(LexerError(EscapeMessage + [t[i + 1]]))
  }

  /** A character could be read at `i` and it is a space. */
  predicate SpaceAt(t: string, i: nat) {
    CharAt(t, i).Ok? && CharAt(t, i).value.Some? && IsSpace(CharAt(t, i).value.value)
  }

  /** `advance`: past the escape sequence when the raw character is a backslash, past
      one character otherwise; from a readable character it never leaves the text. */
  function NextPos(t: string, i: nat): (j: nat)
    ensures i < j <= i + 2
    ensures CharAt(t, i).Ok? && i < |t| ==> j <= |t|
  {
    if i < |t| && t[i] == '\\' then i + 2 else i + 1
  }

  /** `skip_whitespace` from `i`: the first position whose character is not a space. */
  function SkipSpace(t: string, i: nat): (r: Result<nat>)
    ensures r.Ok? ==> i <= r.value && (r.value == i || r.value <= |t|) && !SpaceAt(t, r.value)
    ensures r.Ok? && SpaceAt(t, i) ==> i < r.value
    ensures r.Ok? ==> CharAt(t, r.value).Ok?
    decreases |t| - i
  {
    match CharAt(t, i)
    case Err(e) => Err(e)
    case Ok(None) => Ok(i)
    case Ok(Some(c)) => if IsSpace(c) then SkipSpace(t, NextPos(t, i)) else Ok(i)
  }

  /** `skip_comment` from `i`: up to the next newline (decoded, so `\n` counts) and one
      past it; the flag says whether a newline was passed, which makes the next word
      a command. */
  function CommentSkip(t: string, i: nat): (r: Result<(nat, bool)>)
    ensures r.Ok? ==> i <= r.value.0 && (r.value.0 == i || r.value.0 <= |t|)
    ensures r.Ok? && !r.value.1 ==> r.value.0 >= |t|
    decreases |t| - i
  {
    match CharAt(t, i)
    case Err(e) => Err(e)
    case Ok(None) => Ok((i, false))
    case Ok(Some(c)) => if c != '\n' then CommentSkip(t, NextPos(t, i)) else Ok((NextPos(t, i), true))
  }

  function TokensCons(tok: Token, r: Result<(seq<Token>, nat)>): Result<(seq<Token>, nat)> {
    match r
    case Ok((ts, j)) => Ok(([tok] + ts, j))
    case Err(e) => Err(e)
  }

  /** Every token is a one-character flag. */
  predicate AllFlags(ts: seq<Token>) {
    forall k :: 0 <= k < |ts| ==> ts[k].ttype == FLAG && ts[k].value.Some? && |ts[k].value.value| == 1
  }

  /** The loop of `flags` from `i`: one FLAG token per decoded character up to a
      space, a `;` or the end. */
  function FlagTokens(t: string, i: nat): (r: Result<(seq<Token>, nat)>)
    ensures r.Ok? ==> i <= r.value.1 && (r.value.1 == i || r.value.1 <= |t|) && AllFlags(r.value.0)
    decreases |t| - i
  {
    match CharAt(t, i)
    case Err(e) => Err(e)
    case Ok(None) => Ok(([], i))
    case Ok(Some(c)) =>
      if IsSpace(c) || c == ';' then Ok(([], i))
      else TokensCons(Token(FLAG, Some([c])), FlagTokens(t, NextPos(t, i)))
  }

  /** What ends a command word (a space or `;`) or an argument word (also `:`). */
  predicate WordEnds(c: char, colonEnds: bool) {
    IsSpace(c) || c == ';' || (colonEnds && c == ':')
  }

  /** The word reader stops at `i`: nothing more to read, or a character that ends
      the word. */
  predicate WordStopsAt(t: string, i: nat, colonEnds: bool) {
    CharAt(t, i) == Ok(None) || (CharAt(t, i).Ok? && WordEnds(CharAt(t, i).value.value, colonEnds))
  }

  predicate NoWordEnd(w: string, colonEnds: bool) {
    forall k :: 0 <= k < |w| ==> !WordEnds(w[k], colonEnds)
  }

  /** The loop of `CMD` (`colonEnds` false) and of `ARG` (`colonEnds` true) from `i`:
      the decoded characters up to the first one that ends the word. */
  function Word(t: string, i: nat, colonEnds: bool): (r: Result<(string, nat)>)
    ensures r.Ok? ==> i <= r.value.1 && (r.value.1 == i || r.value.1 <= |t|)
    ensures r.Ok? ==> WordStopsAt(t, r.value.1, colonEnds) && NoWordEnd(r.value.0, colonEnds)
    ensures r.Ok? && !WordStopsAt(t, i, colonEnds) ==> i < r.value.1 && |r.value.0| > 0
    decreases |t| - i
  {
    match CharAt(t, i)
    case Err(e) => Err(e)
    case Ok(None) => Ok(("", i))
    case Ok(Some(c)) =>
      if WordEnds(c, colonEnds) then Ok(("", i))
      else JudoParse.Cons([c], Word(t, NextPos(t, i), colonEnds))
  }

  /** The loop of `QUOTE` from `i`: decoded characters up to the next raw `q` (an
      escaped quote does not close). Running off the end adds None to a string,
      which is a TypeError. */
  function QuoteText(t: string, i: nat, q: char): (r: Result<(string, nat)>)
    ensures r.Ok? ==> i <= r.value.1 < |t| && t[r.value.1] == q
    decreases |t| - i
  {
    if i < |t| && t[i] == q then Ok(("", i))
    else
      match CharAt(t, i)
      case Err(e) => Err(e)
      case Ok(None) => Err(TypeError)
      case Ok(Some(c)) => JudoParse.Cons([c], QuoteText(t, NextPos(t, i), q))
  }

  /** The check after a closing quote: the end, a space or a colon may follow;
      anything else is refused. */
  function QuoteFollow(t: string, k: nat): (e: Option<PyError>)
    ensures e.None? <==> CharAt(t, k) == Ok(None) || (CharAt(t, k).Ok? && (IsSpace(CharAt(t, k).value.value) || CharAt(t, k).value.value == ':'))
  {
    match CharAt(t, k)
    case Err(e) => Some(e)
    case Ok(None) => None
    case Ok(Some(c)) =>
      if !IsSpace(c) && c != ':' then Some(LexerError(JudoParse.QuoteFollowMessage + [c])) else None
  }

  /** The quote characters `QUOTE` is called on. */
  predicate QuoteAt(t: string, i: nat) {
    i < |t| && (t[i] == '"' || t[i] == '\'')
  }

  /** `QUOTE` as written: after the closing quote passes the follow check, the token
      is built with a keyword argument `quoted` the token class does not take, which
      is a TypeError; so no quoted argument is ever returned. */
  function QuoteTokenAsWritten(t: string, i: nat): (r: Result<(Token, nat)>)
    requires QuoteAt(t, i)
    ensures r.Err?
  {
    match QuoteText(t, i + 1, t[i])
    case Err(e) => Err(e)
    case Ok((_, j)) =>
      match QuoteFollow(t, NextPos(t, j))
      case Some(e) => Err(e)
      case None => Err(TypeError)
  }

  /** `QUOTE` as intended: the text between the quotes, spaces included, as one ARG
      token, with the position after the closing quote. */
  function QuoteToken(t: string, i: nat): (r: Result<(Token, nat)>)
    requires QuoteAt(t, i)
    ensures r.Ok? ==> r.value.0.ttype == ARG && r.value.0.value.Some? && i + 1 < r.value.1 <= |t|
    ensures r.Ok? ==> QuoteText(t, i + 1, t[i]).Ok? && r.value.0.value.value == QuoteText(t, i + 1, t[i]).value.0
    ensures r.Ok? ==> QuoteFollow(t, r.value.1).None?
  {
    match QuoteText(t, i + 1, t[i])
    case Err(e) => Err(e)
    case Ok((s, j)) =>
      match QuoteFollow(t, NextPos(t, j))
      case Some(e) => Err(e)
      case None => Ok((Token(ARG, Some(s)), NextPos(t, j)))
  }

  /** A token whose value is missing exactly when it is the end-of-file token. */
  predicate Carries(tok: Token) {
    tok.value.None? <==> tok.ttype == EOF
  }

  predicate AllCarry(ts: seq<Token>) {
    forall k :: 0 <= k < |ts| ==> Carries(ts[k])
  }

  /** Every queued token and every alias token carries a value unless it is EOF. */
  predicate WellFormed(L: Lex) {
    AllCarry(L.pending) && forall name :: name in L.aliases ==> AllCarry(L.aliases[name])
  }

  /** The lexer moved on: it read at least one more character of the text, or it
      used up a queued token. */
  predicate Advanced(L: Lex, L': Lex) {
    (L.index < |L.text| && L.index < L'.index) || (L'.index == L.index && |L'.pending| < |L.pending|)
  }

  /** `token_array.pop(0)`. */
  function Pop(L: Lex): (r: Result<(Token, Lex)>)
    ensures |L.pending| == 0 <==> r == Err(IndexError)
    ensures r.Ok? ==> [r.value.0] + r.value.1.pending == L.pending && r.value.1 == L.(pending := r.value.1.pending)
  {
    if |L.pending| == 0 then Err(IndexError) else Ok((L.pending[0], L.(pending := L.pending[1..])))
  }

  /** `resolve_alias`: the alias's tokens go in front of the queue and the first of
      them is returned; an unknown name is refused, and an empty alias over an empty
      queue pops from an empty list. */
  function Resolve(L: Lex, name: string): (r: Result<(Token, Lex)>)
    ensures name !in L.aliases ==> r == Err(LexerError(AliasMessage))
    ensures name in L.aliases && |L.aliases[name]| + |L.pending| == 0 ==> r == Err(IndexError)
    ensures r.Ok? ==> name in L.aliases && [r.value.0] + r.value.1.pending == L.aliases[name] + L.pending
    ensures r.Ok? ==> r.value.1 == L.(pending := r.value.1.pending)
  {
    if name !in L.aliases then Err(LexerError(AliasMessage))
    else Pop(L.(pending := L.aliases[name] + L.pending))
  }

  /** `flags`, on the dash: the flag characters are queued and the first is
      returned, so a dash with no flag after it pops from an empty queue. */
  function FlagsStep(L: Lex): (r: Result<(Token, Lex)>)
    ensures r.Ok? ==> r.value.1.text == L.text && r.value.1.aliases == L.aliases && r.value.1.firstWord == L.firstWord
    ensures r.Ok? ==> L.index < r.value.1.index
  {
    match FlagTokens(L.text, NextPos(L.text, L.index))
    case Err(e) => Err(e)
    case Ok((fs, j)) => Pop(L.(index := j, pending := L.pending + fs))
  }

  /** `CMD`: the command word, after which words are arguments; a word that names
      an alias is replaced by the alias's tokens. */
  function CmdStep(L: Lex): (r: Result<(Token, Lex)>)
    ensures r.Ok? ==> r.value.1.text == L.text && r.value.1.aliases == L.aliases && !r.value.1.firstWord
    ensures r.Ok? && !WordStopsAt(L.text, L.index, false) ==> L.index < r.value.1.index
  {
    match Word(L.text, L.index, false)
    case Err(e) => Err(e)
    case Ok((w, j)) =>
      var L' := L.(index := j, firstWord := false);
      if w in L.aliases then Resolve(L', w) else Ok((Token(CMD, Some(w)), L'))
  }

  /** `ARG`: an unquoted argument word. */
  function ArgStep(L: Lex): (r: Result<(Token, Lex)>)
    ensures r.Ok? ==> r.value.0.ttype == ARG && r.value.0.value.Some? && NoWordEnd(r.value.0.value.value, true)
    ensures r.Ok? ==> r.value.1 == L.(index := r.value.1.index)
    ensures r.Ok? && !WordStopsAt(L.text, L.index, true) ==> L.index < r.value.1.index
  {
    match Word(L.text, L.index, true)
    case Err(e) => Err(e)
    case Ok((w, j)) => Ok((Token(ARG, Some(w)), L.(index := j)))
  }

  /** `QUOTE`, as intended, on the lexer state. */
  function QuoteStep(L: Lex): (r: Result<(Token, Lex)>)
    requires QuoteAt(L.text, L.index)
    ensures r.Ok? ==> r.value.0.ttype == ARG && r.value.0.value.Some?
    ensures r.Ok? ==> r.value.1 == L.(index := r.value.1.index) && L.index < r.value.1.index <= |L.text|
  {
    match QuoteToken(L.text, L.index)
    case Err(e) => Err(e)
    case Ok((tok, j)) => Ok((tok, L.(index := j)))
  }

  /** `EOC`: a `;` ends the command, so the next word is a command again. */
  function EocStep(L: Lex): (r: (Token, Lex))
    ensures r.0 == Token(EOC, Some(";")) && r.1.firstWord
  {
    (Token(EOC, Some(";")), L.(index := NextPos(L.text, L.index), firstWord := true))
  }

  /** The loop of `get_next_token` over the text, once the queue is found empty. */
  function Scan(L: Lex): (r: Result<(Token, Lex)>)
    ensures r.Ok? ==> r.value.1.text == L.text && r.value.1.aliases == L.aliases
    ensures r.Ok? && L.index < |L.text| ==> L.index < r.value.1.index
    ensures L.index >= |L.text| ==> r == Ok((EOFToken, L))
    decreases |L.text| - L.index
  {
    match CharAt(L.text, L.index)
    case Err(e) => Err(e)
    case Ok(None) => Ok((EOFToken, L))
    case Ok(Some(c)) =>
      if IsSpace(c) then
        match SkipSpace(L.text, L.index)
        case Err(e) => Err(e)
        case Ok(j) => Scan(L.(index := j))
      else if c == '#' then
        match CommentSkip(L.text, NextPos(L.text, L.index))
        case Err(e) => Err(e)
        case Ok((j, newline)) => Scan(L.(index := j, firstWord := L.firstWord || newline))
      else TokenAt(L, c)
  }

  /** The token that starts with the character `c` read at the position: a flag
      section, an end of command, a colon, the command word, a quoted argument or a
      plain one. */
  function TokenAt(L: Lex, c: char): (r: Result<(Token, Lex)>)
    requires CharAt(L.text, L.index) == Ok(Some(c)) && !IsSpace(c)
    ensures r.Ok? ==> r.value.1.text == L.text && r.value.1.aliases == L.aliases && L.index < r.value.1.index
  {
    if c == '-' then FlagsStep(L)
    else if c == ';' then Ok(EocStep(L))
    else if c == ':' then Ok((Token(ARG, Some(":")), L.(index := NextPos(L.text, L.index))))
    else if L.firstWord then CmdStep(L)
    else if QuoteAt(L.text, L.index) then QuoteStep(L)
    else ArgStep(L)
  }

  /** `get_next_token`: a queued token first, otherwise the next one in the text,
      and EOF once both are used up. It never changes the text or the alias table,
      and short of EOF it always moves on. */
  function NextToken(L: Lex): (r: Result<(Token, Lex)>)
    ensures r.Ok? ==> r.value.1.text == L.text && r.value.1.aliases == L.aliases
    ensures r.Ok? && (|L.pending| > 0 || L.index < |L.text|) ==> Advanced(L, r.value.1)
    ensures |L.pending| == 0 && L.index >= |L.text| ==> r == Ok((EOFToken, L))
  {
    if |L.pending| > 0 then Pop(L) else Scan(L)
  }

  function TokensPrefix(tok: Token, r: Result<seq<Token>>): Result<seq<Token>> {
    match r
    case Ok(ts) => Ok([tok] + ts)
    case Err(e) => Err(e)
  }

  /** `get_all_tokens`: tokens up to and including the first EOF token. */
  function AllTokens(L: Lex): (r: Result<seq<Token>>)
    ensures r.Ok? ==> |r.value| > 0 && r.value[|r.value| - 1] == EOFToken
    ensures r.Ok? ==> forall k :: 0 <= k < |r.value| - 1 ==> r.value[k] != EOFToken
    decreases |L.text| - L.index, |L.pending|
  {
    match NextToken(L)
    case Err(e) => Err(e)
    case Ok((tok, L')) =>
      if tok == EOFToken then Ok([tok])
      else TokensPrefix(tok, AllTokens(L'))
  }

  /** The loop of `add_alias`: tokens of a fresh lexer on the alias text, taken while
      its read position is still inside the text. */
  function AliasTokens(L: Lex): (r: Result<seq<Token>>)
    ensures L.index >= |L.text| ==> r == Ok([])
    ensures L.index < |L.text| && r.Ok? ==> |r.value| > 0
    decreases |L.text| - L.index, |L.pending|
  {
    match CharAt(L.text, L.index)
    case Err(e) => Err(e)
    case Ok(None) => Ok([])
    case Ok(Some(_)) =>
      match NextToken(L)
      case Err(e) => Err(e)
      case Ok((tok, L')) => TokensPrefix(tok, AliasTokens(L'))
  }

  /** `add_alias` on the table: the name is bound to the tokens of its text. */
  function AddAlias(table: Aliases, name: string, cmd: string): (r: Result<Aliases>)
    ensures r.Ok? ==> r.value.Keys == table.Keys + {name}
    ensures r.Ok? ==> forall other :: other in table && other != name ==> r.value[other] == table[other]
  {
    match AliasTokens(Start(cmd, table))
    case Err(e) => Err(e)
    case Ok(ts) => Ok(table[name := ts])
  }

  /** The values of tokens joined by `' '.join`, which refuses a missing value. */
  function Values(ts: seq<Token>): (r: Option<seq<string>>)
    ensures r.Some? <==> forall k :: 0 <= k < |ts| ==> ts[k].value.Some?
    ensures r.Some? ==> |r.value| == |ts| && forall k :: 0 <= k < |ts| ==> r.value[k] == ts[k].value.value
  {
    if |ts| == 0 then Some([])
    else
      match (ts[0].value, Values(ts[1..]))
      case (Some(v), Some(vs)) => Some([v] + vs)
      case _ => None
  }

  /** `json`: each alias name with its tokens' values joined by single spaces; a
      token without a value makes the join fail. */
  function AliasJson(table: Aliases): (r: Result<map<string, string>>)
    ensures r.Ok? <==> forall name :: name in table ==> Values(table[name]).Some?
    ensures r.Ok? ==> r.value.Keys == table.Keys
    ensures r.Ok? ==> forall name :: name in table ==> r.value[name] == Join(Values(table[name]).value, " ")
  {
    if forall name :: name in table ==> Values(table[name]).Some? then
      Ok(map name | name in table :: Join(Values(table[name]).value, " "))
    else Err(TypeError)
  }

  // Properties of the lexer.

  /** A quoted argument never comes out of `QUOTE` as written: where the intended
      version returns the argument, the written one raises TypeError, and otherwise
      both raise the same error. */
  lemma QuotedArgumentAlwaysRaises(t: string, i: nat)
    requires QuoteAt(t, i)
    ensures QuoteToken(t, i).Ok? ==> QuoteTokenAsWritten(t, i) == Err(TypeError)
    ensures QuoteToken(t, i).Err? ==> QuoteTokenAsWritten(t, i) == QuoteToken(t, i)
  {
  }

  /** Between quotes with no backslash and no quote of the same kind inside, the
      quoted text is read as it stands, spaces included. */
  lemma {:induction false} QuoteTextVerbatim(t: string, j: nat, k: nat, q: char)
    requires j <= k < |t| && t[k] == q
    requires forall m :: j <= m < k ==> t[m] != '\\' && t[m] != q
    ensures QuoteText(t, j, q) == Ok((t[j..k], k))
    decreases k - j
  {
    if j < k {
      assert t[j] != '\\' && t[j] != q;
      assert CharAt(t, j) == Ok(Some(t[j])) && NextPos(t, j) == j + 1;
      QuoteTextVerbatim(t, j + 1, k, q);
      assert QuoteText(t, j, q) == JudoParse.Cons([t[j]], QuoteText(t, j + 1, q));
      assert [t[j]] + t[j + 1..k] == t[j..k];
    } else {
      assert t[j..k] == [];
    }
  }

  /** `QUOTE`, as intended, on a plain quoted text followed by the end, a space or a
      colon, gives that text as one argument. */
  lemma QuoteVerbatim(t: string, i: nat, k: nat)
    requires QuoteAt(t, i) && i < k < |t| && t[k] == t[i]
    requires forall m :: i < m < k ==> t[m] != '\\' && t[m] != t[i]
    requires k + 1 == |t| || IsSpace(t[k + 1]) || t[k + 1] == ':'
    ensures QuoteToken(t, i) == Ok((Token(ARG, Some(t[i + 1..k])), k + 1))
  {
    QuoteTextVerbatim(t, i + 1, k, t[i]);
  }

  /** A comment ends just past the first newline, and the word after it is a
      command again. */
  lemma {:induction false} CommentEndsAtNewline(t: string, i: nat, k: nat)
    requires i <= k < |t| && t[k] == '\n'
    requires forall m :: i <= m < k ==> t[m] != '\\' && t[m] != '\n'
    ensures CommentSkip(t, i) == Ok((k + 1, true))
    decreases k - i
  {
    if i < k {
      CommentEndsAtNewline(t, i + 1, k);
    }
  }

  /** One FLAG token per character of `s`, in order. */
  function FlagsOf(s: string): (ts: seq<Token>)
    ensures |ts| == |s| && AllFlags(ts)
    ensures forall m :: 0 <= m < |s| ==> ts[m] == Token(FLAG, Some([s[m]]))
  {
    if s == [] then [] else [Token(FLAG, Some([s[0]]))] + FlagsOf(s[1..])
  }

  /** A plain flag section up to a space, a `;` or the end: one FLAG token per
      character, in the order they are written. */
  lemma {:induction false} FlagsVerbatim(t: string, i: nat, k: nat)
    requires i <= k <= |t|
    requires forall m :: i <= m < k ==> t[m] != '\\' && !IsSpace(t[m]) && t[m] != ';'
    requires k == |t| || IsSpace(t[k]) || t[k] == ';'
    ensures FlagTokens(t, i) == Ok((FlagsOf(t[i..k]), k))
    decreases k - i
  {
    if i < k {
      FlagsVerbatim(t, i + 1, k);
      assert t[i..k][1..] == t[i + 1..k];
    } else {
      assert t[i..k] == [];
    }
  }

  lemma ScanOnDash(L: Lex)
    requires L.pending == [] && L.index < |L.text| && L.text[L.index] == '-'
    ensures NextToken(L) == FlagsStep(L) && NextPos(L.text, L.index) == L.index + 1
  {
    assert CharAt(L.text, L.index) == Ok(Some('-'));
  }

  /** A flag section `-fg...` yields its first flag at once and queues the others, in
      order, for the following calls. */
  lemma FlagSectionQueues(L: Lex, k: nat)
    requires L.pending == [] && L.index + 1 < k <= |L.text| && L.text[L.index] == '-'
    requires forall m :: L.index < m < k ==> L.text[m] != '\\' && !IsSpace(L.text[m]) && L.text[m] != ';'
    requires k == |L.text| || IsSpace(L.text[k]) || L.text[k] == ';'
    ensures NextToken(L) == Ok((Token(FLAG, Some([L.text[L.index + 1]])), L.(index := k, pending := FlagsOf(L.text[L.index + 2..k]))))
  {
    ScanOnDash(L);
    FlagsStepQueues(L, k);
  }

  /** The flag step behind it: every character of the section becomes a FLAG
      token, and the first one is popped. */
  lemma FlagsStepQueues(L: Lex, k: nat)
    requires L.pending == [] && L.index + 1 < k <= |L.text| && L.text[L.index] == '-'
    requires forall m :: L.index < m < k ==> L.text[m] != '\\' && !IsSpace(L.text[m]) && L.text[m] != ';'
    requires k == |L.text| || IsSpace(L.text[k]) || L.text[k] == ';'
    ensures FlagsStep(L) == Ok((Token(FLAG, Some([L.text[L.index + 1]])), L.(index := k, pending := FlagsOf(L.text[L.index + 2..k]))))
  {
    var t, i := L.text, L.index;
    FlagsVerbatim(t, i + 1, k);
    assert NextPos(t, i) == i + 1 by { ScanOnDash(L); }
    var fs := FlagsOf(t[i + 1..k]);
    assert FlagTokens(t, i + 1) == Ok((fs, k));
    assert FlagsStep(L) == Pop(L.(index := k, pending := [] + fs));
    assert [] + fs == fs;
    assert t[i + 1..k][1..] == t[i + 2..k];
    assert fs == [Token(FLAG, Some([t[i + 1]]))] + FlagsOf(t[i + 2..k]);
  }

  /** A dash with no flag after it pops from an empty queue. */
  lemma LoneDashRaises(L: Lex)
    requires L.pending == [] && L.index < |L.text| && L.text[L.index] == '-'
    requires L.index + 1 == |L.text| || L.text[L.index + 1] == ' '
    ensures NextToken(L) == Err(IndexError)
  {
  }

  /** A colon is an argument of its own wherever it stands. */
  lemma ColonStandsAlone(L: Lex)
    requires L.pending == [] && L.index < |L.text| && L.text[L.index] == ':'
    ensures NextToken(L) == Ok((Token(ARG, Some(":")), L.(index := L.index + 1)))
  {
  }

  /** A `;` ends the command: an EOC token, and the next word is a command. */
  lemma SemicolonEndsCommand(L: Lex)
    requires L.pending == [] && L.index < |L.text| && L.text[L.index] == ';'
    ensures NextToken(L) == Ok((Token(EOC, Some(";")), L.(index := L.index + 1, firstWord := true)))
  {
  }

  /** Over a well-formed state, a scanned token has a value unless it is EOF, and the
      state stays well formed. */
  lemma {:induction false} ScanCarries(L: Lex)
    requires WellFormed(L)
    ensures var r := Scan(L); r.Ok? ==> Carries(r.value.0) && WellFormed(r.value.1)
    decreases |L.text| - L.index
  {
    var t, i := L.text, L.index;
    match CharAt(t, i)
    case Err(_) =>
    case Ok(None) =>
    case Ok(Some(c)) =>
      if IsSpace(c) {
        if SkipSpace(t, i).Ok? {
          ScanCarries(L.(index := SkipSpace(t, i).value));
        }
      } else if c == '#' {
        var cs := CommentSkip(t, NextPos(t, i));
        if cs.Ok? {
          ScanCarries(L.(index := cs.value.0, firstWord := L.firstWord || cs.value.1));
        }
      } else if c == '-' {
        var ft := FlagTokens(t, NextPos(t, i));
        if ft.Ok? {
          FlagsCarry(L.pending, ft.value.0);
        }
      } else if !(c == ';' || c == ':') && L.firstWord {
        var w := Word(t, i, false);
        if w.Ok? && w.value.0 in L.aliases {
          FlagsCarry(L.aliases[w.value.0], L.pending);
        }
      }
  }

  lemma FlagsCarry(a: seq<Token>, b: seq<Token>)
    requires AllCarry(a) && (AllCarry(b) || AllFlags(b))
    ensures AllCarry(a + b) && (|a + b| > 0 ==> AllCarry((a + b)[1..]))
  {
    assert forall k :: 0 <= k < |b| ==> Carries(b[k]);
  }

  /** The same for `get_next_token`. */
  lemma NextTokenCarries(L: Lex)
    requires WellFormed(L)
    ensures var r := NextToken(L); r.Ok? ==> Carries(r.value.0) && WellFormed(r.value.1)
  {
    if |L.pending| > 0 {
      FlagsCarry([], L.pending);
    } else {
      ScanCarries(L);
    }
  }

  /** Every token `get_all_tokens` returns has a value, except the final EOF. */
  lemma {:induction false} AllTokensCarry(L: Lex)
    requires WellFormed(L)
    ensures AllTokens(L).Ok? ==> AllCarry(AllTokens(L).value)
    decreases |L.text| - L.index, |L.pending|
  {
    NextTokenCarries(L);
    var r := NextToken(L);
    if r.Ok? && r.value.0 != EOFToken {
      AllTokensCarry(r.value.1);
    }
  }

  /** A plain word (no backslash) up to a character that ends it, or the end, is read
      as it stands. */
  lemma {:induction false} WordVerbatim(t: string, i: nat, k: nat, colonEnds: bool)
    requires i <= k <= |t|
    requires forall m :: i <= m < k ==> t[m] != '\\' && !WordEnds(t[m], colonEnds)
    requires k == |t| || (t[k] != '\\' && WordEnds(t[k], colonEnds))
    ensures Word(t, i, colonEnds) == Ok((t[i..k], k))
    decreases k - i
  {
    if i < k {
      assert t[i] != '\\' && !WordEnds(t[i], colonEnds);
      assert CharAt(t, i) == Ok(Some(t[i])) && NextPos(t, i) == i + 1;
      WordVerbatim(t, i + 1, k, colonEnds);
      assert Word(t, i, colonEnds) == JudoParse.Cons([t[i]], Word(t, i + 1, colonEnds));
      assert [t[i]] + t[i + 1..k] == t[i..k];
    } else {
      assert t[i..k] == [];
    }
  }

  /** Plain spaces up to a character that is not one. */
  lemma {:induction false} SpaceVerbatim(t: string, i: nat, k: nat)
    requires i <= k <= |t|
    requires forall m :: i <= m < k ==> IsSpace(t[m])
    requires k == |t| || (t[k] != '\\' && !IsSpace(t[k]))
    ensures SkipSpace(t, i) == Ok(k)
    decreases k - i
  {
    if i < k {
      assert t[i] != '\\';
      SpaceVerbatim(t, i + 1, k);
    }
  }

  /** Spaces are skipped before the next token is looked for. */
  lemma ScanSkipsSpace(L: Lex, k: nat)
    requires L.index < k <= |L.text|
    requires forall m :: L.index <= m < k ==> IsSpace(L.text[m])
    requires k == |L.text| || (L.text[k] != '\\' && !IsSpace(L.text[k]))
    ensures Scan(L) == Scan(L.(index := k))
  {
    SpaceVerbatim(L.text, L.index, k);
    assert CharAt(L.text, L.index) == Ok(Some(L.text[L.index]));
  }

  /** A plain first word is the command. */
  lemma ScanCommand(L: Lex, k: nat)
    requires L.firstWord && L.index < k <= |L.text|
    requires forall m :: L.index <= m < k ==> L.text[m] != '\\' && !WordEnds(L.text[m], false)
    requires k == |L.text| || (L.text[k] != '\\' && WordEnds(L.text[k], false))
    requires L.text[L.index] !in "#-:" && L.text[L.index..k] !in L.aliases
    ensures Scan(L) == Ok((Token(CMD, Some(L.text[L.index..k])), L.(index := k, firstWord := false)))
  {
    WordVerbatim(L.text, L.index, k, false);
    assert CharAt(L.text, L.index) == Ok(Some(L.text[L.index]));
  }

  /** A plain later word is an argument. */
  lemma ScanArgument(L: Lex, k: nat)
    requires !L.firstWord && L.index < k <= |L.text|
    requires forall m :: L.index <= m < k ==> L.text[m] != '\\' && !WordEnds(L.text[m], true)
    requires k == |L.text| || (L.text[k] != '\\' && WordEnds(L.text[k], true))
    requires L.text[L.index] !in "#-\"'"
    ensures Scan(L) == Ok((Token(ARG, Some(L.text[L.index..k])), L.(index := k)))
  {
    WordVerbatim(L.text, L.index, k, true);
    assert CharAt(L.text, L.index) == Ok(Some(L.text[L.index]));
  }

  /** `get_all_tokens` takes one token and carries on, short of EOF. */
  lemma AllTokensStep(L: Lex, tok: Token, L': Lex)
    requires NextToken(L) == Ok((tok, L')) && tok != EOFToken
    ensures AllTokens(L) == TokensPrefix(tok, AllTokens(L'))
  {
  }

  lemma ExampleCommand(t: string)
    requires t == "run -fg echo" || t == "run this"
    ensures NextToken(Start(t, map[])) == Ok((Token(CMD, Some("run")), Lex(t, 3, false, [], map[])))
  {
    ScanCommand(Start(t, map[]), 3);
    assert t[0..3] == "run";
  }

  lemma ExampleFlags(t: string)
    requires t == "run -fg echo"
    ensures NextToken(Lex(t, 3, false, [], map[])) == Ok((Token(FLAG, Some("f")), Lex(t, 7, false, [Token(FLAG, Some("g"))], map[])))
  {
    var L := Lex(t, 3, false, [], map[]);
    ScanSkipsSpace(L, 4);
    FlagSectionQueues(L.(index := 4), 7);
    assert NextToken(L) == Scan(L) == Scan(L.(index := 4)) == NextToken(L.(index := 4));
    var fs := FlagsOf(t[6..7]);
    assert |fs| == 1 && fs[0] == Token(FLAG, Some([t[6]]));
    assert fs == [Token(FLAG, Some("g"))];
    assert [t[5]] == "f";
  }

  lemma ExampleArgument(t: string)
    requires t == "run -fg echo"
    ensures NextToken(Lex(t, 7, false, [], map[])) == Ok((Token(ARG, Some("echo")), Lex(t, 12, false, [], map[])))
  {
    var L := Lex(t, 7, false, [], map[]);
    ScanSkipsSpace(L, 8);
    ScanArgument(L.(index := 8), 12);
    assert NextToken(L) == Scan(L) == Scan(L.(index := 8));
    assert t[8..12] == "echo";
  }

  /** The lexer's own example: `run -fg echo` is the command, two flags, one argument
      and EOF. */
  lemma RunFlagsExample(t: string)
    requires t == "run -fg echo"
    ensures AllTokens(Start(t, map[])) ==
            Ok([Token(CMD, Some("run")), Token(FLAG, Some("f")), Token(FLAG, Some("g")), Token(ARG, Some("echo")), EOFToken])
  {
    var f, g := Token(FLAG, Some("f")), Token(FLAG, Some("g"));
    ExampleCommand(t);
    ExampleFlags(t);
    ExampleArgument(t);
    var L2, L3, L4 := Lex(t, 7, false, [g], map[]), Lex(t, 7, false, [], map[]), Lex(t, 12, false, [], map[]);
    assert NextToken(L4) == Ok((EOFToken, L4));
    assert NextToken(L2) == Ok((g, L3));
    var e := Token(ARG, Some("echo"));
    var c := Token(CMD, Some("run"));
    assert AllTokens(L4) == Ok([EOFToken]);
    AllTokensStep(L3, e, L4);
    assert [e] + [EOFToken] == [e, EOFToken];
    AllTokensStep(L2, g, L3);
    assert [g] + [e, EOFToken] == [g, e, EOFToken];
    AllTokensStep(Lex(t, 3, false, [], map[]), f, L2);
    assert [f] + [g, e, EOFToken] == [f, g, e, EOFToken];
    AllTokensStep(Start(t, map[]), c, Lex(t, 3, false, [], map[]));
    assert [c] + [f, g, e, EOFToken] == [c, f, g, e, EOFToken];
  }

  /** `add_alias` takes one token while the read position is inside the text. */
  lemma AliasStep(L: Lex, tok: Token, L': Lex)
    requires L.index < |L.text| && CharAt(L.text, L.index).Ok? && NextToken(L) == Ok((tok, L'))
    ensures AliasTokens(L) == TokensPrefix(tok, AliasTokens(L'))
  {
  }

  lemma DropsQueuedFlagsStep(t: string)
    requires t == "r -fg"
    ensures NextToken(Lex(t, 1, false, [], map[])) == Ok((Token(FLAG, Some("f")), Lex(t, 5, false, FlagsOf(t[4..5]), map[])))
  {
    var L1 := Lex(t, 1, false, [], map[]);
    ScanSkipsSpace(L1, 2);
    FlagSectionQueues(L1.(index := 2), 5);
    assert NextToken(L1) == Scan(L1) == Scan(L1.(index := 2)) == NextToken(L1.(index := 2));
    assert [t[3]] == "f";
  }

  /** `add_alias` on `r -fg`: the loop stops once the text is read, so the flag `g`
      still waiting in the queue never reaches the alias. */
  lemma AliasDropsQueuedFlags(t: string)
    requires t == "r -fg"
    ensures AliasTokens(Start(t, map[])) == Ok([Token(CMD, Some("r")), Token(FLAG, Some("f"))])
  {
    var c, f := Token(CMD, Some("r")), Token(FLAG, Some("f"));
    var L0, L1 := Start(t, map[]), Lex(t, 1, false, [], map[]);
    ScanCommand(L0, 1);
    assert t[0..1] == "r";
    var L2 := Lex(t, 5, false, FlagsOf(t[4..5]), map[]);
    DropsQueuedFlagsStep(t);
    assert AliasTokens(L2) == Ok([]);
    AliasStep(L1, f, L2);
    assert [f] + [] == [f];
    AliasStep(L0, c, L1);
    assert [c] + [f] == [c, f];
  }

  lemma AliasExampleArgument(t: string)
    requires t == "run this"
    ensures NextToken(Lex(t, 3, false, [], map[])) == Ok((Token(ARG, Some("this")), Lex(t, 8, false, [], map[])))
  {
    var L1 := Lex(t, 3, false, [], map[]);
    ScanSkipsSpace(L1, 4);
    ScanArgument(L1.(index := 4), 8);
    assert t[4..8] == "this";
  }

  /** `add_alias('t', 'run this')` binds `t` to the command and its argument. */
  lemma AddAliasExample(t: string)
    requires t == "run this"
    ensures AddAlias(map[], "t", t) == Ok(map["t" := [Token(CMD, Some("run")), Token(ARG, Some("this"))]])
  {
    var c, a := Token(CMD, Some("run")), Token(ARG, Some("this"));
    var L0, L1, L2 := Start(t, map[]), Lex(t, 3, false, [], map[]), Lex(t, 8, false, [], map[]);
    ExampleCommand(t);
    AliasExampleArgument(t);
    assert AliasTokens(L2) == Ok([]);
    AliasStep(L1, a, L2);
    assert [a] + [] == [a];
    AliasStep(L0, c, L1);
    assert [c] + [a] == [c, a];
  }

  function QueueJoin(queued: seq<Token>, r: Result<(seq<Token>, nat)>): Result<(seq<Token>, nat)> {
    match r
    case Ok((fs, j)) => Ok((queued + fs, j))
    case Err(e) => Err(e)
  }

  /** One turn of the `flags` loop, and its exit. */
  lemma QueueJoinStep(queued: seq<Token>, t: string, i: nat)
    ensures QueueJoin(queued, FlagTokens(t, i)) ==
            match CharAt(t, i)
            case Err(e) => Err(e)
            case Ok(None) => Ok((queued, i))
            case Ok(Some(c)) =>
              if IsSpace(c) || c == ';' then Ok((queued, i))
              else QueueJoin(queued + [Token(FLAG, Some([c]))], FlagTokens(t, NextPos(t, i)))
  {
    assert queued + [] == queued;
    if CharAt(t, i).Ok? && CharAt(t, i).value.Some? {
      var c := CharAt(t, i).value.value;
      if !(IsSpace(c) || c == ';') && FlagTokens(t, NextPos(t, i)).Ok? {
        var rest := FlagTokens(t, NextPos(t, i)).value.0;
        assert queued + ([Token(FLAG, Some([c]))] + rest) == (queued + [Token(FLAG, Some([c]))]) + rest;
      }
    }
  }

  function AfterTokens(done: seq<Token>, r: Result<seq<Token>>): Result<seq<Token>> {
    match r
    case Ok(ts) => Ok(done + ts)
    case Err(e) => Err(e)
  }

  lemma AfterTokensJoins(done: seq<Token>, tok: Token, r: Result<seq<Token>>)
    ensures AfterTokens(done, TokensPrefix(tok, r)) == AfterTokens(done + [tok], r)
    ensures AfterTokens([], r) == r
    ensures AfterTokens(done, Ok([])) == Ok(done)
  {
    assert done + [] == done;
    if r.Ok? {
      assert done + ([tok] + r.value) == (done + [tok]) + r.value;
      assert [] + r.value == r.value;
    }
  }

  /** The lexer object: its fields are the state `Lex` describes. */
  class Lexer {
    var text: string
    var index: nat
    var firstWord: bool
    var pending: seq<Token>
    var aliases: Aliases

    function State(): Lex
      reads this
    {
      Lex(text, index, firstWord, pending, aliases)
    }

    /** `Lexer(text, alias_table)`. */
    constructor(t: string, table: Aliases)
      ensures State() == Start(t, table)
    {
      text, index, firstWord, pending, aliases := t, 0, true, [], table;
    }

    /** `new`: a fresh start on the next text, with the alias table kept. */
    method New(t: string)
      modifies this
      ensures State() == Start(t, old(aliases))
    {
      text, index, firstWord, pending := t, 0, true, [];
    }

    /** `is_alias`. */
    predicate IsAlias(name: string)
      reads this
    {
      name in aliases
    }

    /** `advance`. */
    method Advance()
      modifies this
      ensures State() == old(State()).(index := NextPos(old(text), old(index)))
    {
      if index < |text| && text[index] == '\\' {
        index := index + 1;
      }
      index := index + 1;
    }

    /** `skip_whitespace`. */
    method SkipWhitespace() returns (r: Result<()>)
      modifies this
      ensures match SkipSpace(old(text), old(index))
              case Ok(j) => r.Ok? && State() == old(State()).(index := j)
              case Err(e) => r == Err(e)
    {
      while SpaceAt(text, index)
        invariant State() == old(State()).(index := index)
        invariant SkipSpace(text, index) == SkipSpace(text, old(index))
        decreases |text| - index
      {
        Advance();
      }
      var c := CharAt(text, index);
      if c.Err? {
        return Err(c.error);
      }
      r := Ok(());
    }

    /** `skip_comment`, called just past the `#`. */
    method SkipComment() returns (r: Result<()>)
      modifies this
      ensures match CommentSkip(old(text), old(index))
              case Ok((j, newline)) => r.Ok? && State() == old(State()).(index := j, firstWord := old(firstWord) || newline)
              case Err(e) => r == Err(e)
    {
      while CharAt(text, index).Ok? && CharAt(text, index).value.Some? && CharAt(text, index).value.value != '\n'
        invariant State() == old(State()).(index := index)
        invariant CommentSkip(text, index) == CommentSkip(text, old(index))
        decreases |text| - index
      {
        Advance();
      }
      var c := CharAt(text, index);
      if c.Err? {
        return Err(c.error);
      }
      if c == Ok(Some('\n')) {
        Advance();
        firstWord := true;
      }
      r := Ok(());
    }

    /** `resolve_alias`. */
    method ResolveAlias(name: string) returns (r: Result<Token>)
      modifies this
      ensures match Resolve(old(State()), name)
              case Ok((tok, L)) => r == Ok(tok) && State() == L
              case Err(e) => r == Err(e)
    {
      if !IsAlias(name) {
        return Err(LexerError(AliasMessage));
      }
      pending := aliases[name] + pending;
      if |pending| == 0 {
        return Err(IndexError);
      }
      r := Ok(pending[0]);
      pending := pending[1..];
    }

    /** `flags`, called on the dash. */
    method Flags() returns (r: Result<Token>)
      modifies this
      ensures match FlagsStep(old(State()))
              case Ok((tok, L)) => r == Ok(tok) && State() == L
              case Err(e) => r == Err(e)
    {
      Advance();
      var q := QueueFlags();
      if q.Err? {
        return Err(q.error);
      }
      if |pending| == 0 {
        return Err(IndexError);
      }
      r := Ok(pending[0]);
      pending := pending[1..];
    }

    /** The loop of `flags`: each flag character is queued as a FLAG token. */
    method QueueFlags() returns (r: Result<()>)
      modifies this
      ensures match FlagTokens(old(text), old(index))
              case Ok((fs, j)) => r.Ok? && State() == old(State()).(index := j, pending := old(pending) + fs)
              case Err(e) => r == Err(e)
    {
      QueueJoinStep(pending, text, index);
      while CharAt(text, index).Ok? && CharAt(text, index).value.Some? && !IsSpace(CharAt(text, index).value.value) && CharAt(text, index).value.value != ';'
        invariant State() == old(State()).(index := index, pending := pending)
        invariant QueueJoin(pending, FlagTokens(text, index)) == QueueJoin(old(pending), FlagTokens(old(text), old(index)))
        decreases |text| - index
      {
        QueueJoinStep(pending, text, index);
        pending := pending + [Token(FLAG, Some([CharAt(text, index).value.value]))];
        Advance();
        QueueJoinStep(pending, text, index);
      }
      var c := CharAt(text, index);
      if c.Err? {
        return Err(c.error);
      }
      r := Ok(());
    }

    /** `EOC`, called on the `;`. */
    method Eoc() returns (tok: Token)
      modifies this
      ensures (tok, State()) == EocStep(old(State()))
    {
      firstWord := true;
      Advance();
      tok := Token(EOC, Some(";"));
    }

    /** The loop shared by `CMD` and `ARG`. */
    method ReadWord(colonEnds: bool) returns (r: Result<string>)
      modifies this
      ensures match Word(old(text), old(index), colonEnds)
              case Ok((w, j)) => r == Ok(w) && State() == old(State()).(index := j)
              case Err(e) => r == Err(e)
    {
      var acc := "";
      JudoParse.ConsJoins("", "", Word(text, index, colonEnds));
      while CharAt(text, index).Ok? && CharAt(text, index).value.Some? && !WordEnds(CharAt(text, index).value.value, colonEnds)
        invariant State() == old(State()).(index := index)
        invariant JudoParse.Cons(acc, Word(text, index, colonEnds)) == Word(old(text), old(index), colonEnds)
        decreases |text| - index
      {
        ghost var before := acc;
        acc := acc + [CharAt(text, index).value.value];
        Advance();
        JudoParse.ConsJoins(before, acc[|before|..], Word(text, index, colonEnds));
        assert before + acc[|before|..] == acc;
      }
      var c := CharAt(text, index);
      if c.Err? {
        return Err(c.error);
      }
      assert acc + "" == acc;
      r := Ok(acc);
    }

    /** `CMD`: the command word; the next words are arguments. */
    method Cmd() returns (r: Result<Token>)
      modifies this
      ensures match Word(old(text), old(index), false)
              case Ok((w, j)) => r == Ok(Token(CMD, Some(w))) && State() == old(State()).(index := j, firstWord := false)
              case Err(e) => r == Err(e)
    {
      var w := ReadWord(false);
      if w.Err? {
        return Err(w.error);
      }
      firstWord := false;
      r := Ok(Token(CMD, Some(w.value)));
    }

    /** `ARG`. */
    method Arg() returns (r: Result<Token>)
      modifies this
      ensures match ArgStep(old(State()))
              case Ok((tok, L)) => r == Ok(tok) && State() == L
              case Err(e) => r == Err(e)
    {
      var w := ReadWord(true);
      if w.Err? {
        return Err(w.error);
      }
      r := Ok(Token(ARG, Some(w.value)));
    }

    /** `QUOTE`, as intended, called on the opening quote. */
    method Quote() returns (r: Result<Token>)
      requires QuoteAt(text, index)
      modifies this
      ensures match QuoteStep(old(State()))
              case Ok((tok, L)) => r == Ok(tok) && State() == L
              case Err(e) => r == Err(e)
    {
      var q := text[index];
      Advance();
      var acc := "";
      JudoParse.ConsJoins("", "", QuoteText(text, index, q));
      while !(index < |text| && text[index] == q)
        invariant State() == old(State()).(index := index) && old(index) < index
        invariant JudoParse.Cons(acc, QuoteText(text, index, q)) == QuoteText(old(text), old(index) + 1, q)
        decreases |text| - index
      {
        var c := CharAt(text, index);
        if c.Err? {
          return Err(c.error);
        }
        if c.value.None? {
          return Err(TypeError);
        }
        ghost var before := acc;
        acc := acc + [c.value.value];
        Advance();
        JudoParse.ConsJoins(before, acc[|before|..], QuoteText(text, index, q));
        assert before + acc[|before|..] == acc;
      }
      assert acc + "" == acc;
      Advance();
      var f := QuoteFollow(text, index);
      if f.Some? {
        return Err(f.value);
      }
      r := Ok(Token(ARG, Some(acc)));
    }

    /** The branches of `get_next_token` once a character that is not a space or a
        `#` has been read. */
    method ReadToken(c: char) returns (r: Result<Token>)
      requires CharAt(text, index) == Ok(Some(c)) && !IsSpace(c)
      modifies this
      ensures match TokenAt(old(State()), c)
              case Ok((tok, L)) => r == Ok(tok) && State() == L
              case Err(e) => r == Err(e)
    {
      if c == '-' {
        r := Flags();
      } else if c == ';' {
        var tok := Eoc();
        r := Ok(tok);
      } else if c == ':' {
        Advance();
        r := Ok(Token(ARG, Some(":")));
      } else if firstWord {
        var tok := Cmd();
        if tok.Ok? && IsAlias(tok.value.value.value) {
          r := ResolveAlias(tok.value.value.value);
        } else {
          r := tok;
        }
      } else if QuoteAt(text, index) {
        r := Quote();
      } else {
        r := Arg();
      }
    }

    /** `get_next_token`. */
    method GetNextToken() returns (r: Result<Token>)
      modifies this
      ensures match NextToken(old(State()))
              case Ok((tok, L)) => r == Ok(tok) && State() == L
              case Err(e) => r == Err(e)
    {
      if |pending| > 0 {
        r := Ok(pending[0]);
        pending := pending[1..];
        return;
      }
      while CharAt(text, index) != Ok(None)
        invariant pending == [] && Scan(State()) == Scan(old(State()))
        decreases |text| - index
      {
        var c := CharAt(text, index);
        if c.Err? {
          return Err(c.error);
        }
        var ch := c.value.value;
        if IsSpace(ch) {
          var s := SkipWhitespace();
          if s.Err? {
            return Err(s.error);
          }
        } else if ch == '#' {
          Advance();
          var s := SkipComment();
          if s.Err? {
            return Err(s.error);
          }
        } else {
          r := ReadToken(ch);
          return;
        }
      }
      r := Ok(EOFToken);
    }

    /** `get_all_tokens`: calls `get_next_token` until it returns EOF. */
    method GetAllTokens() returns (r: Result<seq<Token>>)
      modifies this
      ensures r == AllTokens(old(State()))
    {
      var first := GetNextToken();
      if first.Err? {
        return Err(first.error);
      }
      var tokens := [first.value];
      AfterTokensJoins([], first.value, AllTokens(State()));
      while tokens[|tokens| - 1] != EOFToken
        invariant |tokens| > 0 && text == old(text)
        invariant tokens[|tokens| - 1] != EOFToken ==> AfterTokens(tokens, AllTokens(State())) == AllTokens(old(State()))
        invariant tokens[|tokens| - 1] == EOFToken ==> Ok(tokens) == AllTokens(old(State()))
        decreases |text| - index, |pending|, if tokens[|tokens| - 1] == EOFToken then 0 else 1
      {
        var next := GetNextToken();
        if next.Err? {
          return Err(next.error);
        }
        AfterTokensJoins(tokens, next.value, AllTokens(State()));
        tokens := tokens + [next.value];
      }
      r := Ok(tokens);
    }

    /** `add_alias`: lexes the alias text with a second lexer over the same table and
        binds the name to the tokens taken. */
    method AddAlias(name: string, cmd: string) returns (r: Result<()>)
      modifies this
      ensures match AliasTokens(Start(cmd, old(aliases)))
              case Ok(ts) => r.Ok? && State() == old(State()).(aliases := old(aliases)[name := ts])
              case Err(e) => r == Err(e)
    {
      var tmp := new Lexer(cmd, aliases);
      var tokens := [];
      AfterTokensJoins([], EOFToken, AliasTokens(tmp.State()));
      while CharAt(tmp.text, tmp.index) != Ok(None)
        invariant fresh(tmp) && State() == old(State())
        invariant tmp.text == cmd && tmp.aliases == aliases
        invariant AfterTokens(tokens, AliasTokens(tmp.State())) == AliasTokens(Start(cmd, aliases))
        decreases |tmp.text| - tmp.index, |tmp.pending|
      {
        var c := CharAt(tmp.text, tmp.index);
        if c.Err? {
          return Err(c.error);
        }
        var tok := tmp.GetNextToken();
        if tok.Err? {
          return Err(tok.error);
        }
        AfterTokensJoins(tokens, tok.value, AliasTokens(tmp.State()));
        tokens := tokens + [tok.value];
      }
      AfterTokensJoins(tokens, EOFToken, AliasTokens(tmp.State()));
      aliases := aliases[name := tokens];
      r := Ok(());
    }
  }
}
