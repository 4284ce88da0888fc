/**
 * The few pieces of Python's string and sequence semantics that the
 * interpreter relies on: `str.isspace`, `str.isdigit`, `int(...)` and
 * `str(n)` on naturals, `str.split`/`str.join`, `str.replace` with a
 * one-character pattern, `str.strip`, `str.lower`, and indexing and
 * slicing with negative or out-of-range positions.
 */
module PyStr {
  import opened Wrappers

  /** `c.isspace()`: the whitespace characters of Python 3. */
  predicate IsSpace(c: char) {
    var k := c as int;
    (9 <= k <= 13) || (28 <= k <= 32) || k == 0x85 || k == 0xa0 || k == 0x1680
    || (0x2000 <= k <= 0x200a) || k == 0x2028 || k == 0x2029 || k == 0x202f
    || k == 0x205f || k == 0x3000
  }

  predicate IsDigit(c: char) { '0' <= c <= '9' }

  /** `s.isdigit()` restricted to ASCII digits: true for a non-empty run of digits. */
  predicate IsDigits(s: string) {
    |s| > 0 && forall i :: 0 <= i < |s| ==> IsDigit(s[i])
  }

  function DigitChar(d: nat): (c: char)
    requires d < 10
    ensures IsDigit(c) && (c as int) - ('0' as int) == d
  {
    (('0' as int) + d) as char
  }

  /** `int(s)` on a string of ASCII digits. */
  function DigitsValue(s: string): nat
    requires forall i :: 0 <= i < |s| ==> IsDigit(s[i])
    decreases |s|
  {
    if |s| == 0 then 0
    else 10 * DigitsValue(s[..|s| - 1]) + DigitValue(s[|s| - 1])
  }

  function DigitValue(c: char): (d: nat)
    requires IsDigit(c)
    ensures d < 10
  {
    (c as int) - ('0' as int)
  }

  /** `str(n)` for a natural number. */
  function NatToString(n: nat): (s: string)
    ensures IsDigits(s)
    decreases n
  {
    if n < 10 then [DigitChar(n)] else NatToString(n / 10) + [DigitChar(n % 10)]
  }

  /** `int(str(n)) == n`. */
  lemma {:induction false} DigitsValueOfNatToString(n: nat)
    ensures DigitsValue(NatToString(n)) == n
    decreases n
  {
    var s := NatToString(n);
    if n < 10 {
      assert s[..0] == [];
    } else {
      DigitsValueOfNatToString(n / 10);
      assert s[..|s| - 1] == NatToString(n / 10);
    }
  }

  /** Distinct numbers have distinct decimal spellings. */
  lemma NatToStringInjective(a: nat, b: nat)
    ensures NatToString(a) == NatToString(b) ==> a == b
  {
    DigitsValueOfNatToString(a);
    DigitsValueOfNatToString(b);
  }

  /** `sep.join(parts)`. */
  function Join(parts: seq<string>, sep: string): string
    decreases |parts|
  {
    if |parts| == 0 then ""
    else if |parts| == 1 then parts[0]
    else parts[0] + sep + Join(parts[1..], sep)
  }

  /** Every word followed by one space: the text `f_echo` and
      `args_to_str` build before they drop the last character. */
  function Spaced(words: seq<string>): string
    decreases |words|
  {
    if |words| == 0 then "" else words[0] + " " + Spaced(words[1..])
  }

  lemma {:induction false} SpacedIsJoinPlusSpace(words: seq<string>)
    requires |words| > 0
    ensures Spaced(words) == Join(words, " ") + " "
    decreases |words|
  {
    if |words| > 1 {
      SpacedIsJoinPlusSpace(words[1..]);
    }
  }

  lemma SpacedAppend(words: seq<string>, w: string)
    ensures Spaced(words + [w]) == Spaced(words) + w + " "
    decreases |words|
  {
    if |words| > 0 {
      assert (words + [w])[1..] == words[1..] + [w];
      SpacedAppend(words[1..], w);
    } else {
      assert words + [w] == [w];
    }
  }

  /** `s.split(c)` for a one-character separator: always at least one piece. */
  function Split(s: string, c: char): (pieces: seq<string>)
    ensures |pieces| >= 1
    ensures forall k, j :: 0 <= k < |pieces| && 0 <= j < |pieces[k]| ==> pieces[k][j] != c
    decreases |s|
  {
    if |s| == 0 then [""]
    else
      var rest := Split(s[1..], c);
      if s[0] == c then [""] + rest else [[s[0]] + rest[0]] + rest[1..]
  }

  /** `s.replace(c, r)` for a one-character pattern: every `c` becomes `r`. */
  function ReplaceChar(s: string, c: char, r: string): string
    decreases |s|
  {
    if |s| == 0 then "" else (if s[0] == c then r else [s[0]]) + ReplaceChar(s[1..], c, r)
  }

  lemma ReplaceCharAppend(a: string, b: string, c: char, r: string)
    ensures ReplaceChar(a + b, c, r) == ReplaceChar(a, c, r) + ReplaceChar(b, c, r)
    decreases |a|
  {
    if |a| > 0 {
      var head := if a[0] == c then r else [a[0]];
      assert (a + b)[0] == a[0];
      assert (a + b)[1..] == a[1..] + b;
      ReplaceCharAppend(a[1..], b, c, r);
      calc {
        ReplaceChar(a + b, c, r);
        head + ReplaceChar(a[1..] + b, c, r);
        head + (ReplaceChar(a[1..], c, r) + ReplaceChar(b, c, r));
        (head + ReplaceChar(a[1..], c, r)) + ReplaceChar(b, c, r);
      }
    } else {
      assert a + b == b;
    }
  }

  /** Joining the pieces of a split with `d` replaces every separator by `d`. */
  lemma {:induction false} JoinSplitIsReplace(s: string, c: char, d: string)
    ensures Join(Split(s, c), d) == ReplaceChar(s, c, d)
    decreases |s|
  {
    if |s| > 0 {
      JoinSplitIsReplace(s[1..], c, d);
      var rest := Split(s[1..], c);
      if s[0] == c {
        assert Split(s, c) == [""] + rest;
        assert (["" ] + rest)[1..] == rest;
      } else {
        var ps := Split(s, c);
        assert ps == [[s[0]] + rest[0]] + rest[1..];
        assert ps[1..] == rest[1..];
      }
    }
  }

  /** Splitting a text whose first piece has no separator peels that piece off. */
  lemma {:induction false} SplitAfterPiece(x: string, y: string, c: char)
    requires forall k :: 0 <= k < |x| ==> x[k] != c
    ensures Split(x + [c] + y, c) == [x] + Split(y, c)
    decreases |x|
  {
    var s := x + [c] + y;
    if |x| == 0 {
      assert s == [c] + y;
      assert s[1..] == y;
    } else {
      SplitAfterPiece(x[1..], y, c);
      assert s[0] == x[0];
      assert s[1..] == x[1..] + [c] + y;
      assert [x[0]] + x[1..] == x;
    }
  }

  /** A text without the separator splits into itself. */
  lemma {:induction false} SplitWhole(x: string, c: char)
    requires forall k :: 0 <= k < |x| ==> x[k] != c
    ensures Split(x, c) == [x]
    decreases |x|
  {
    if |x| > 0 {
      SplitWhole(x[1..], c);
      assert [x[0]] + x[1..] == x;
    }
  }

  /** Splitting what a join with a one-character separator produced gives the
      parts back, when no part holds the separator. */
  lemma {:induction false} SplitJoin(parts: seq<string>, c: char)
    requires |parts| > 0
    requires forall k, j :: 0 <= k < |parts| && 0 <= j < |parts[k]| ==> parts[k][j] != c
    ensures Split(Join(parts, [c]), c) == parts
    decreases |parts|
  {
    if |parts| == 1 {
      SplitWhole(parts[0], c);
    } else {
      SplitJoin(parts[1..], c);
      assert forall j :: 0 <= j < |parts[0]| ==> parts[0][j] != c;
      SplitAfterPiece(parts[0], Join(parts[1..], [c]), c);
      assert [parts[0]] + parts[1..] == parts;
    }
  }

  /** `s.lower()` on ASCII letters; other characters are kept. */
  function Lower(s: string): (r: string)
    ensures |r| == |s|
    ensures forall i :: 0 <= i < |s| ==> r[i] == (if 'A' <= s[i] <= 'Z' then (s[i] as int + 32) as char else s[i])
  {
    seq(|s|, i requires 0 <= i < |s| => if 'A' <= s[i] <= 'Z' then (s[i] as int + 32) as char else s[i])
  }

  /** `s.strip()`: leading and trailing whitespace removed. */
  function Strip(s: string): string
    decreases |s|
  {
    if |s| > 0 && IsSpace(s[0]) then Strip(s[1..])
    else if |s| > 0 && IsSpace(s[|s| - 1]) then Strip(s[..|s| - 1])
    else s
  }

  /** A stripped string is empty exactly when every character is whitespace. */
  lemma {:induction false} StripEmptyIff(s: string)
    ensures |Strip(s)| == 0 <==> forall i :: 0 <= i < |s| ==> IsSpace(s[i])
    decreases |s|
  {
    if |s| > 0 && IsSpace(s[0]) {
      StripEmptyIff(s[1..]);
      assert forall i :: 1 <= i < |s| ==> s[i] == s[1..][i - 1];
    } else if |s| > 0 && IsSpace(s[|s| - 1]) {
      StripEmptyIff(s[..|s| - 1]);
      assert !IsSpace(s[0]);
    }
  }

  /** `s[i]` with Python's negative indices; `None` is the IndexError. */
  function PyIndex<T>(s: seq<T>, i: int): (r: Option<T>)
    ensures r.Some? <==> -|s| <= i < |s|
    ensures 0 <= i < |s| ==> r == Some(s[i])
    ensures -|s| <= i < 0 ==> r == Some(s[|s| + i])
  {
    if 0 <= i < |s| then Some(s[i])
    else if -|s| <= i < 0 then Some(s[|s| + i])
    else None
  }

  /** The position a Python slice bound `i` stands for in a sequence of length `n`. */
  function SliceBound(n: nat, i: int): (k: nat)
    ensures k <= n
    ensures 0 <= i <= n ==> k == i
  {
    if i < 0 then (if n + i < 0 then 0 else n + i) else if i > n then n else i
  }

  /** `s[:i]`. */
  function PySliceTo<T>(s: seq<T>, i: int): seq<T> {
    s[..SliceBound(|s|, i)]
  }

  /** `s[i:]`. */
  function PySliceFrom<T>(s: seq<T>, i: int): seq<T> {
    s[SliceBound(|s|, i)..]
  }

  /** `s[:i] + s[i:] == s` for every `i`, negative or out of range. */
  lemma SliceSplit<T>(s: seq<T>, i: int)
    ensures PySliceTo(s, i) + PySliceFrom(s, i) == s
  {
  }

  /** `s[:-1]`: drops the last element, and leaves the empty sequence empty. */
  lemma DropLast<T>(s: seq<T>)
    ensures |s| > 0 ==> PySliceTo(s, |s| - 1) == s[..|s| - 1]
    ensures |s| == 0 ==> PySliceTo(s, -1) == []
  {
  }
}
