/** The three tree builders and the notation detector, stated over the
    non-blank characters the cursor hands out (`Tokens` of the input): the
    cursor skips every blank, so a builder never sees anything else. */
module Builders {
  import opened Options
  import opened Text
  import opened Tree

  /** What a builder call ends in: a tree, Python's `None` return, or a Python
      exception (`pop` on an empty list, `None.isdigit()` at end of input). */
  datatype Outcome = Got(node: Node) | Rejected | Raised

  /** A tree exactly as the builders create it: well formed and unstamped. */
  predicate AsBuilt(t: Node)
  {
    WellFormed(t) && Shape(t) == t
  }

  predicate AllAsBuilt(stack: seq<Node>)
  {
    forall i :: 0 <= i < |stack| ==> AsBuilt(stack[i])
  }

  // ------------------------------------------------------------------ prefix

  /** `buildFromPrefixExpression`: the outcome and the tokens left unread. An
      operator builds both operands even when the first one came back `None`;
      an exception in the first one skips the second. */
  function PrefixBuild(ts: seq<char>): (r: (Outcome, seq<char>))
    ensures ts == [] ==> r.0 == Raised
    ensures |r.1| <= |ts|
    ensures ts != [] ==> |r.1| < |ts|
    ensures r.0.Got? ==> AsBuilt(r.0.node)
    decreases |ts|
  {
    if ts == [] then (Raised, [])
    else
      var c, rest := ts[0], ts[1..];
      if IsOperator(c) then
        var left := PrefixBuild(rest);
        if left.0.Raised? then left
        else
          var right := PrefixBuild(left.1);
          if right.0.Raised? then right
          else if left.0.Got? && right.0.Got? then
            (Got(Op(c, left.0.node, right.0.node, 0.0, 0)), right.1)
          else (Rejected, right.1)
      else if IsDigit(c) then (Got(Leaf(DigitValue(c))), rest)
      else (Rejected, rest)
  }

  // ----------------------------------------------------------------- postfix

  /** The `while c:` loop of `buildFromPostfixExpression` from a given stack
      (top at the end): digits push leaves, an operator pops its right operand
      and then its left one, and end of input pops the top. */
  function PostfixRun(ts: seq<char>, stack: seq<Node>): (r: (Outcome, seq<char>))
    ensures |r.1| <= |ts|
    ensures AllAsBuilt(stack) && r.0.Got? ==> AsBuilt(r.0.node)
    decreases |ts|
  {
    if ts == [] then
      if stack == [] then (Raised, []) else (Got(stack[|stack| - 1]), [])
    else
      var c, rest := ts[0], ts[1..];
      if IsDigit(c) then PostfixRun(rest, stack + [Leaf(DigitValue(c))])
      else if IsOperator(c) then
        if stack == [] then (Raised, rest)
        else
          var right, below := stack[|stack| - 1], stack[..|stack| - 1];
          if below == [] then (Raised, rest)
          else
            var left := below[|below| - 1];
            PostfixRun(rest, below[..|below| - 1] + [Op(c, left, right, 0.0, 0)])
      else (Rejected, rest)
  }

  /** `buildFromPostfixExpression`: the loop from an empty stack. Nothing at
      all, or an operator first, leaves nothing to pop. */
  function PostfixBuild(ts: seq<char>): (r: (Outcome, seq<char>))
    ensures ts == [] || IsOperator(ts[0]) ==> r.0 == Raised
    ensures |r.1| <= |ts|
    ensures r.0.Got? ==> AsBuilt(r.0.node)
  {
    PostfixRun(ts, [])
  }

  /** One step of the postfix loop on a digit: it pushes the leaf. */
  lemma PostfixDigitStep(c: char, rest: seq<char>, stack: seq<Node>)
    requires IsDigit(c)
    ensures PostfixRun([c] + rest, stack) == PostfixRun(rest, stack + [Leaf(DigitValue(c))])
  {
    assert ([c] + rest)[0] == c && ([c] + rest)[1..] == rest;
  }

  /** One step of the postfix loop on an operator: it raises with fewer than
      two operands, otherwise it replaces the top two by the operation. */
  lemma PostfixOperatorStep(c: char, rest: seq<char>, stack: seq<Node>)
    requires IsOperator(c)
    ensures |stack| < 2 ==> PostfixRun([c] + rest, stack) == (Raised, rest)
    ensures |stack| >= 2 ==>
      PostfixRun([c] + rest, stack) ==
      PostfixRun(rest, stack[..|stack| - 2] + [Op(c, stack[|stack| - 2], stack[|stack| - 1], 0.0, 0)])
  {
    assert ([c] + rest)[0] == c && ([c] + rest)[1..] == rest;
    if |stack| >= 2 {
      var below := stack[..|stack| - 1];
      assert below[|below| - 1] == stack[|stack| - 2] && below[..|below| - 1] == stack[..|stack| - 2];
    }
  }

  // ------------------------------------------------------------------- infix

  /** One call of `buildFromInfixExpression` from a given stack: `(` builds a
      nested call and pushes its tree, a digit pushes a leaf, an operator pops
      its left operand and returns at once with a full nested call as its
      right operand, and `)` or end of input returns the top of the stack. */
  function InfixRun(ts: seq<char>, stack: seq<Node>): (r: (Outcome, seq<char>))
    ensures |r.1| <= |ts|
    ensures AllAsBuilt(stack) && r.0.Got? ==> AsBuilt(r.0.node)
    decreases |ts|
  {
    if ts == [] then
      if stack == [] then (Raised, []) else (Got(stack[|stack| - 1]), [])
    else
      var c, rest := ts[0], ts[1..];
      if c == '(' then
        var sub := InfixRun(rest, []);
        if sub.0.Got? then InfixRun(sub.1, stack + [sub.0.node]) else sub
      else if IsDigit(c) then InfixRun(rest, stack + [Leaf(DigitValue(c))])
      else if IsOperator(c) then
        if stack == [] then (Raised, rest)
        else
          var right := InfixRun(rest, []);
          if right.0.Got? then (Got(Op(c, stack[|stack| - 1], right.0.node, 0.0, 0)), right.1)
          else right
      else if c == ')' then
        if stack == [] then (Raised, rest) else (Got(stack[|stack| - 1]), rest)
      else (Rejected, rest)
  }

  /** `buildFromInfixExpression`: one call from an empty stack. Nothing at
      all, or an operator or `)` first, leaves nothing to pop. */
  function InfixBuild(ts: seq<char>): (r: (Outcome, seq<char>))
    ensures ts == [] || IsOperator(ts[0]) || ts[0] == ')' ==> r.0 == Raised
    ensures |r.1| <= |ts|
    ensures r.0.Got? ==> AsBuilt(r.0.node)
  {
    InfixRun(ts, [])
  }

  // ---------------------------------------------------------------- dispatch

  /** Which builder `fillFromExpression` picks from the first character of the
      (stripped) input text. */
  datatype Route = NoInput | ViaPrefix | ViaPostfix | ViaInfix | Unknown(c: char)

  function Detect(input: seq<char>): (r: Route)
    ensures r.NoInput? <==> input == []
    ensures r.ViaPrefix? <==> input != [] && IsOperator(input[0])
    ensures r.ViaPostfix? <==> input != [] && IsDigit(input[0])
    ensures r.ViaInfix? <==> input != [] && input[0] == '('
  {
    if input == [] then NoInput
    else if IsOperator(input[0]) then ViaPrefix
    else if IsDigit(input[0]) then ViaPostfix
    else if input[0] == '(' then ViaInfix
    else Unknown(input[0])
  }

  /** The builder run on the whole of `input`, if the detector picks one. */
  function Dispatch(input: seq<char>): (r: Option<Outcome>)
    ensures r.Some? <==> Detect(input) in {ViaPrefix, ViaPostfix, ViaInfix}
    ensures r.Some? && r.value.Got? ==> AsBuilt(r.value.node)
  {
    match Detect(input)
    case ViaPrefix => Some(PrefixBuild(Tokens(input)).0)
    case ViaPostfix => Some(PostfixBuild(Tokens(input)).0)
    case ViaInfix => Some(InfixBuild(Tokens(input)).0)
    case _ => None
  }
}
