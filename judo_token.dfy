/**
 * The tokens the Judo lexer hands to the parser: a type and an optional
 * text value (only the end-of-file token carries none), the equality the
 * token class defines, and its printed form.
 */
module JudoTokens {
  import opened Wrappers

  datatype TokenType = EOF | PROGRAM | CMD | ARG | FLAG | EOC

  datatype Token = Token(ttype: TokenType, value: Option<string>)

  /** A value a token may be compared with: another token, or anything else. */
  datatype Other = IsToken(token: Token) | NotToken

  /** The enum member's value, which is its name. */
  function TypeName(t: TokenType): (s: string)
    ensures |s| > 0
    ensures forall i :: 0 <= i < |s| ==> 'A' <= s[i] <= 'Z'
  {
    match t
    case EOF => "EOF"
    case PROGRAM => "PROGRAM"
    case CMD => "CMD"
    case ARG => "ARG"
    case FLAG => "FLAG"
    case EOC => "EOC"
  }

  /** `Token.__eq__`: false for anything that is not a token, otherwise the same
      type and the same value, which is structural equality of tokens. */
  predicate Equals(a: Token, other: Other): (r: bool)
    ensures r <==> other.IsToken? && other.token == a
  {
    match other
    case NotToken => false
    case IsToken(b) => a.ttype == b.ttype && a.value == b.value
  }

  /** The value as `__str__` shows it: `value or 'None'`, so a missing value and an
      empty one both show as `None`. */
  function Shown(v: Option<string>): (s: string)
    ensures v.None? ==> s == "None"
    ensures v.Some? && v.value == "" ==> s == "None"
    ensures v.Some? && v.value != "" ==> s == v.value
  {
    match v
    case None => "None"
    case Some(x) => if x == "" then "None" else x
  }

  /** `Token.__str__`. */
  function Render(t: Token): (s: string)
    ensures |s| == |TypeName(t.ttype)| + |Shown(t.value)| + 16
    ensures s[..6] == "Token(" && s[|s| - 1] == ')'
  {
    "Token(" + TypeName(t.ttype) + ", value: " + Shown(t.value) + ")"
  }

  lemma TypeNameInjective(a: TokenType, b: TokenType)
    ensures TypeName(a) == TypeName(b) <==> a == b
  {
  }

  /** The printed form starts with the type's name and is closed by a parenthesis;
      two tokens print alike exactly when their types agree and their values show
      alike. */
  lemma RenderDetermines(a: Token, b: Token)
    ensures Render(a) == Render(b) <==> a.ttype == b.ttype && Shown(a.value) == Shown(b.value)
  {
    var na, nb := TypeName(a.ttype), TypeName(b.ttype);
    if Render(a) == Render(b) {
      Layout(a);
      Layout(b);
      if |na| != |nb| {
        assert false;
      }
      TypeNameInjective(a.ttype, b.ttype);
    }
  }

  /** Where the parts of the printed form sit: the name from position 6, a comma
      right after it, and the shown value between the separator and the final
      parenthesis. */
  lemma Layout(t: Token)
    ensures var r, n := Render(t), TypeName(t.ttype);
            && |r| == 6 + |n| + 9 + |Shown(t.value)| + 1
            && r[6..6 + |n|] == n
            && (forall i :: 6 <= i < 6 + |n| ==> r[i] != ',')
            && r[6 + |n|] == ','
            && r[6 + |n| + 9..|r| - 1] == Shown(t.value)
  {
  }

  /** The printed form does not tell a missing value from the text "None" or from
      an empty one. */
  lemma RenderHidesEmpty(t: TokenType)
    ensures Render(Token(t, None)) == Render(Token(t, Some(""))) == Render(Token(t, Some("None")))
  {
  }
}
