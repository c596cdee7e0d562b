/** Character-level helpers shared by the cursor, the builders and the renderers:
    Python's notion of whitespace, `str.strip()`, the non-blank characters of a
    text, single digits and `str()` of an integer. */
module Text {

  /** `str.isspace()` for one character: the ASCII blanks and separators plus
      the Unicode spaces Python strips. */
  predicate IsSpace(c: char): (b: bool)
    ensures b ==> !IsDigit(c) && !IsOperator(c) && c != '(' && c != ')'
  {
    c == ' ' || c == '\t' || c == '\n' || c == '\r' || c == '\U{b}' || c == '\U{c}'
    || ('\U{1c}' <= c <= '\U{1f}') || c == '\U{85}' || c == '\U{a0}' || c == '\U{1680}'
    || ('\U{2000}' <= c <= '\U{200a}') || c == '\U{2028}' || c == '\U{2029}'
    || c == '\U{202f}' || c == '\U{205f}' || c == '\U{3000}'
  }

  /** A decimal digit; other characters Python counts as digits are not modelled. */
  predicate IsDigit(c: char)
  {
    '0' <= c <= '9'
  }

  /** One of the five supported operator symbols. */
  predicate IsOperator(c: char)
  {
    c == '+' || c == '*' || c == '-' || c == '/' || c == '%'
  }

  /** `int(c)` for a digit character. */
  function DigitValue(c: char): (d: int)
    requires IsDigit(c)
    ensures 0 <= d <= 9
    ensures DigitChar(d) == c
  {
    c as int - '0' as int
  }

  /** The character that `str(d)` produces for a single digit. */
  function DigitChar(d: int): (c: char)
    requires 0 <= d <= 9
    ensures IsDigit(c) && !IsSpace(c) && !IsOperator(c) && c != '(' && c != ')'
    ensures c as int - '0' as int == d
  {
    ('0' as int + d) as char
  }

  /** Leading whitespace removed. */
  function StripStart(s: seq<char>): (r: seq<char>)
    ensures r != [] ==> !IsSpace(r[0])
    ensures |r| <= |s| && r == s[|s| - |r|..]
  {
    if s != [] && IsSpace(s[0]) then StripStart(s[1..]) else s
  }

  /** Trailing whitespace removed. */
  function StripEnd(s: seq<char>): (r: seq<char>)
    ensures r != [] ==> !IsSpace(r[|r| - 1])
    ensures |r| <= |s| && r == s[..|r|]
  {
    if s != [] && IsSpace(s[|s| - 1]) then StripEnd(s[..|s| - 1]) else s
  }

  /** `str.strip()` with no argument. */
  function Strip(s: seq<char>): (r: seq<char>)
    ensures |r| <= |s|
    ensures r != [] ==> !IsSpace(r[0]) && !IsSpace(r[|r| - 1])
  {
    StripEnd(StripStart(s))
  }

  /** The non-blank characters of `s`, in order: all a whitespace-skipping
      reader can ever observe of it. */
  function Tokens(s: seq<char>): (r: seq<char>)
    ensures |r| <= |s|
    ensures forall i :: 0 <= i < |r| ==> !IsSpace(r[i])
  {
    if s == [] then []
    else if IsSpace(s[0]) then Tokens(s[1..])
    else [s[0]] + Tokens(s[1..])
  }

  /** Decimal digits of a natural number, most significant first. */
  function NatToString(n: nat): (r: string)
    ensures r != [] && forall i :: 0 <= i < |r| ==> IsDigit(r[i])
  {
    if n < 10 then [DigitChar(n)] else NatToString(n / 10) + [DigitChar(n % 10)]
  }

  /** `str(n)` for a Python int. */
  function IntToString(n: int): (r: string)
    ensures r != []
  {
    if n < 0 then "-" + NatToString(-n) else NatToString(n)
  }

  lemma {:induction false} TokensAppend(a: seq<char>, b: seq<char>)
    ensures Tokens(a + b) == Tokens(a) + Tokens(b)
  {
    if a == [] {
      assert a + b == b;
    } else {
      assert (a + b)[0] == a[0] && (a + b)[1..] == a[1..] + b;
      TokensAppend(a[1..], b);
      if !IsSpace(a[0]) {
        assert Tokens(a + b) == [a[0]] + (Tokens(a[1..]) + Tokens(b));
      }
    }
  }

  /** Stripping never changes what a whitespace-skipping reader observes. */
  lemma {:induction false} TokensStrip(s: seq<char>)
    ensures Tokens(Strip(s)) == Tokens(s)
  {
    TokensStripStart(s);
    TokensStripEnd(StripStart(s));
  }

  lemma {:induction false} TokensStripStart(s: seq<char>)
    ensures Tokens(StripStart(s)) == Tokens(s)
  {
    if s != [] && IsSpace(s[0]) {
      TokensStripStart(s[1..]);
    }
  }

  lemma {:induction false} TokensStripEnd(s: seq<char>)
    ensures Tokens(StripEnd(s)) == Tokens(s)
  {
    if s != [] && IsSpace(s[|s| - 1]) {
      var n := |s| - 1;
      assert s == s[..n] + [s[n]];
      TokensAppend(s[..n], [s[n]]);
      assert Tokens([s[n]]) == [];
      TokensStripEnd(s[..n]);
    }
  }

  /** A text whose first character is not blank keeps it in front after its
      trailing whitespace is removed. */
  lemma {:induction false} StripEndKeepsFirst(s: seq<char>)
    requires s != [] && !IsSpace(s[0])
    ensures StripEnd(s) != [] && StripEnd(s)[0] == s[0]
  {
    if IsSpace(s[|s| - 1]) {
      assert |s| > 1;
      StripEndKeepsFirst(s[..|s| - 1]);
    }
  }

  /** A stripped text is empty exactly when it has no non-blank character,
      and otherwise starts with the first of them. */
  lemma {:induction false} StripFront(s: seq<char>)
    ensures Strip(s) == [] <==> Tokens(s) == []
    ensures Strip(s) != [] ==> Tokens(s) == [Strip(s)[0]] + Tokens(Strip(s)[1..])
  {
    var t := Strip(s);
    TokensStrip(s);
    if t != [] {
      assert !IsSpace(StripStart(s)[0]);
      StripEndKeepsFirst(StripStart(s));
      assert !IsSpace(t[0]);
      assert Tokens(t) == [t[0]] + Tokens(t[1..]);
    }
  }

}
