/** The whitespace-skipping character cursor (`ExprParser`). */
module Cursor {
  import opened Text
  import opened Options

  /** The non-blank characters a builder has yet to see: the character it
      holds in hand (if any) followed by what the cursor still holds. */
  function Pending(c: Option<char>, input: seq<char>): seq<char>
  {
    if c.Some? then [c.value] + Tokens(input) else Tokens(input)
  }

  class Parser {
    /** The unconsumed text (`inputExpr`). */
    var input: seq<char>

    constructor (text: seq<char>)
      ensures input == Strip(text)
      ensures Tokens(input) == Tokens(text)
    {
      input := Strip(text);
      TokensStrip(text);
    }

    /** Strips the remaining text and hands out its first character, or
        `None` when nothing but whitespace was left. */
    method GetNext() returns (c: Option<char>)
      modifies this
      ensures var s := Strip(old(input));
        if s == [] then c == None && input == [] else c == Some(s[0]) && input == s[1..]
      ensures c.Some? ==> !IsSpace(c.value)
      ensures c == None <==> Tokens(old(input)) == []
      ensures Pending(c, input) == Tokens(old(input))
    {
      StripFront(input);
      input := Strip(input);
      if |input| > 0 {
        c := Some(input[0]);
        input := input[1..];
      } else {
        c := None;
      }
    }
  }
}
