/** Rendering a tree in one notation and feeding the text back to the
    matching builder gives back the tree as the builder would create it. */
module RoundTrip {
  import opened Options
  import opened Text
  import opened Tree
  import opened Builders

  // ------------------------------------------------------------------ prefix

  /** The prefix builder reads exactly one rendered tree and leaves whatever
      follows it unread. */
  lemma {:induction false} PrefixTokensParse(t: Node, rest: seq<char>)
    requires WellFormed(t)
    ensures PrefixBuild(PrefixTokens(t) + rest) == (Got(Shape(t)), rest)
  {
    match t
    case Leaf(v) =>
      var ts := [DigitChar(v)] + rest;
      assert ts[0] == DigitChar(v) && ts[1..] == rest;
    case Op(s, l, r, _, _) =>
      var mid := PrefixTokens(r) + rest;
      assert PrefixBuild(PrefixTokens(l) + mid) == (Got(Shape(l)), mid) by {
        PrefixTokensParse(l, mid);
      }
      assert PrefixBuild(mid) == (Got(Shape(r)), rest) by {
        PrefixTokensParse(r, rest);
      }
      assert PrefixTokens(t) + rest == [s] + (PrefixTokens(l) + mid);
      PrefixOperatorStep(s, PrefixTokens(l) + mid, Shape(l), mid, Shape(r), rest);
  }

  /** An operator whose two operands are read in turn gives the operation. */
  lemma PrefixOperatorStep(c: char, rest: seq<char>, a: Node, mid: seq<char>, b: Node, after: seq<char>)
    requires IsOperator(c)
    requires PrefixBuild(rest) == (Got(a), mid) && PrefixBuild(mid) == (Got(b), after)
    ensures PrefixBuild([c] + rest) == (Got(Op(c, a, b, 0.0, 0)), after)
  {
    assert ([c] + rest)[0] == c && ([c] + rest)[1..] == rest;
  }

  /** An operator's call gives a tree only when both operand calls do. */
  lemma PrefixOperatorGot(ts: seq<char>)
    requires ts != [] && IsOperator(ts[0]) && PrefixBuild(ts).0.Got?
    ensures var left := PrefixBuild(ts[1..]);
      && left.0.Got? && PrefixBuild(left.1).0.Got?
      && PrefixBuild(ts) == (Got(Op(ts[0], left.0.node, PrefixBuild(left.1).0.node, 0.0, 0)), PrefixBuild(left.1).1)
  {
  }

  /** Conversely, whatever the prefix builder accepts is the prefix rendering
      of the tree it returns, followed by the unread tokens. */
  lemma {:induction false} PrefixParseTokens(ts: seq<char>)
    requires PrefixBuild(ts).0.Got?
    ensures WellFormed(PrefixBuild(ts).0.node)
    ensures ts == PrefixTokens(PrefixBuild(ts).0.node) + PrefixBuild(ts).1
    decreases |ts|
  {
    var r := PrefixBuild(ts);
    var c, rest := ts[0], ts[1..];
    assert ts == [c] + rest;
    if IsOperator(c) {
      PrefixOperatorGot(ts);
      var left := PrefixBuild(rest);
      var right := PrefixBuild(left.1);
      PrefixParseTokens(rest);
      PrefixParseTokens(left.1);
      PrefixOperationTokens(c, left.0.node, right.0.node, rest, left.1, right.1);
    } else {
      assert r == (Got(Leaf(DigitValue(c))), rest);
      assert PrefixTokens(r.0.node) == [c];
    }
  }

  /** The tokens of an operation are its symbol followed by those of its
      operands. */
  lemma PrefixOperationTokens(c: char, a: Node, b: Node, rest: seq<char>, mid: seq<char>, after: seq<char>)
    requires IsOperator(c) && WellFormed(a) && WellFormed(b)
    requires rest == PrefixTokens(a) + mid && mid == PrefixTokens(b) + after
    ensures [c] + rest == PrefixTokens(Op(c, a, b, 0.0, 0)) + after
  {
  }

  // ----------------------------------------------------------------- postfix

  /** Reading a rendered tree in postfix pushes exactly that tree. */
  lemma {:induction false} PostfixTokensParse(t: Node, rest: seq<char>, stack: seq<Node>)
    requires WellFormed(t)
    ensures PostfixRun(PostfixTokens(t) + rest, stack) == PostfixRun(rest, stack + [Shape(t)])
  {
    match t
    case Leaf(v) =>
      var ts := [DigitChar(v)] + rest;
      assert ts[0] == DigitChar(v) && ts[1..] == rest;
    case Op(s, l, r, _, _) =>
      assert PostfixTokens(t) + rest == PostfixTokens(l) + (PostfixTokens(r) + ([s] + rest));
      PostfixTokensParse(l, PostfixTokens(r) + ([s] + rest), stack);
      PostfixTokensParse(r, [s] + rest, stack + [Shape(l)]);
      var st := stack + [Shape(l)] + [Shape(r)];
      assert ([s] + rest)[0] == s && ([s] + rest)[1..] == rest;
      assert st[|st| - 1] == Shape(r) && st[..|st| - 1] == stack + [Shape(l)];
      var below := st[..|st| - 1];
      assert below[|below| - 1] == Shape(l) && below[..|below| - 1] == stack;
  }

  /** The postfix builder returns the top of its stack and silently drops
      what lies below: two renderings in a row give the second tree. */
  lemma PostfixKeepsLast(a: Node, b: Node)
    requires WellFormed(a) && WellFormed(b)
    ensures PostfixBuild(PostfixTokens(a) + PostfixTokens(b)) == (Got(Shape(b)), [])
  {
    PostfixTokensParse(a, PostfixTokens(b), []);
    assert PostfixTokens(b) == PostfixTokens(b) + [];
    PostfixTokensParse(b, [], [Shape(a)]);
  }

  // ------------------------------------------------------------------- infix

  /** A rendered operand followed by `)` is read by one call with an empty
      stack, which returns at that `)`. */
  lemma {:induction false} InfixOperandParse(t: Node, rest: seq<char>)
    requires WellFormed(t)
    ensures InfixRun(InfixTokens(t) + [')'] + rest, []) == (Got(Shape(t)), rest)
    decreases Size(t), 3
  {
    var close := [')'] + rest;
    assert InfixTokens(t) + [')'] + rest == InfixTokens(t) + close;
    InfixOperandPush(t, close);
    assert close[0] == ')' && close[1..] == rest;
  }

  /** What follows the `(` of a rendered operation, up to and including its
      `)`, is read by one call with an empty stack. */
  lemma {:induction false} InfixInnerParse(s: char, l: Node, r: Node, rest: seq<char>)
    requires IsOperator(s) && WellFormed(l) && WellFormed(r)
    ensures InfixRun(InfixTokens(l) + [s] + InfixTokens(r) + [')'] + rest, [])
         == (Got(Op(s, Shape(l), Shape(r), 0.0, 0)), rest)
    decreases Size(l) + Size(r) + 1, 1
  {
    var tail := [s] + InfixTokens(r) + [')'] + rest;
    assert InfixTokens(l) + [s] + InfixTokens(r) + [')'] + rest == InfixTokens(l) + tail;
    InfixOperandPush(l, tail);
    InfixOperatorParse(s, Shape(l), r, rest);
  }

  /** A rendered operand at the start of a call is read and pushed. */
  lemma {:induction false} InfixOperandPush(l: Node, tail: seq<char>)
    requires WellFormed(l)
    ensures InfixRun(InfixTokens(l) + tail, []) == InfixRun(tail, [Shape(l)])
    decreases Size(l), 2
  {
    match l
    case Leaf(v) =>
      InfixDigitStep(DigitChar(v), tail, []);
      assert [] + [Leaf(DigitValue(DigitChar(v)))] == [Shape(l)];
    case Op(ls, ll, lr, _, _) =>
      var lInner := InfixTokens(ll) + [ls] + InfixTokens(lr) + [')'];
      assert InfixTokens(l) + tail == ['('] + (lInner + tail);
      InfixInnerParse(ls, ll, lr, tail);
      InfixOpenStep(lInner + tail, [], Shape(l), tail);
      assert [] + [Shape(l)] == [Shape(l)];
  }

  /** One step of an infix call on a digit: it pushes the leaf. */
  lemma InfixDigitStep(c: char, rest: seq<char>, stack: seq<Node>)
    requires IsDigit(c)
    ensures InfixRun([c] + rest, stack) == InfixRun(rest, stack + [Leaf(DigitValue(c))])
  {
    assert ([c] + rest)[0] == c && ([c] + rest)[1..] == rest;
  }

  /** One step of an infix call on `(`: a nested call reads a tree, which is
      pushed. */
  lemma InfixOpenStep(rest: seq<char>, stack: seq<Node>, t: Node, after: seq<char>)
    requires InfixRun(rest, []) == (Got(t), after)
    ensures InfixRun(['('] + rest, stack) == InfixRun(after, stack + [t])
  {
    assert (['('] + rest)[0] == '(' && (['('] + rest)[1..] == rest;
  }

  /** An operator pops the operand already read and takes a whole nested
      call, ending at the `)`, as its right operand. */
  lemma InfixOperatorParse(s: char, left: Node, r: Node, rest: seq<char>)
    requires IsOperator(s) && WellFormed(r)
    ensures InfixRun([s] + InfixTokens(r) + [')'] + rest, [left])
         == (Got(Op(s, left, Shape(r), 0.0, 0)), rest)
    decreases Size(r), 4
  {
    var after := InfixTokens(r) + [')'] + rest;
    var tail := [s] + InfixTokens(r) + [')'] + rest;
    assert tail == [s] + after;
    assert tail[0] == s && tail[1..] == after;
    InfixOperandParse(r, rest);
  }

  /** A whole infix rendering is read as its tree. */
  lemma InfixTokensParse(t: Node)
    requires WellFormed(t)
    ensures InfixBuild(InfixTokens(t)) == (Got(Shape(t)), [])
  {
    assert InfixTokens(t) + [] == InfixTokens(t);
    InfixOperandPush(t, []);
  }

  // ------------------------------------------- through the notation detector

  lemma {:induction false} PostfixStartsWithDigit(t: Node)
    requires WellFormed(t)
    ensures PostfixTokens(t) != [] && IsDigit(PostfixTokens(t)[0])
  {
    match t
    case Leaf(_) =>
    case Op(_, l, r, _, _) =>
      PostfixStartsWithDigit(l);
      assert PostfixTokens(t)[0] == PostfixTokens(l)[0];
  }

  /** The detector sees the first non-blank character of a rendering. */
  lemma FirstOfStripped(text: seq<char>, ts: seq<char>)
    requires Tokens(text) == ts && ts != []
    ensures Strip(text) != [] && Strip(text)[0] == ts[0] && Tokens(Strip(text)) == ts
  {
    StripFront(text);
    TokensStrip(text);
  }

  /** Prefix text of any well-formed tree, as read from a fresh cursor,
      rebuilds that tree. A bare digit starts like postfix and goes to the
      postfix builder, which reads it as the same leaf. */
  lemma PrefixStringFills(t: Node)
    requires WellFormed(t)
    ensures Dispatch(Strip(PrefixString(t))) == Some(Got(Shape(t)))
  {
    var input := Strip(PrefixString(t));
    assert input != [] && input[0] == PrefixTokens(t)[0] && Tokens(input) == PrefixTokens(t) by {
      PrefixStringTokens(t);
      FirstOfStripped(PrefixString(t), PrefixTokens(t));
    }
    match t
    case Leaf(v) => LeafFills(input, v);
    case Op(_, _, _, _, _) => PrefixOperationFills(t, input);
  }

  /** Any text whose only non-blank character is one digit, and starts with
      it, goes to the postfix builder and gives that leaf. */
  lemma LeafFills(input: seq<char>, v: int)
    requires 0 <= v <= 9
    requires input != [] && input[0] == DigitChar(v) && Tokens(input) == [DigitChar(v)]
    ensures Dispatch(input) == Some(Got(Leaf(v)))
  {
    assert Detect(input) == ViaPostfix;
    assert Dispatch(input) == Some(PostfixBuild([DigitChar(v)]).0);
    LeafParse(v);
  }

  lemma PrefixOperationFills(t: Node, input: seq<char>)
    requires WellFormed(t) && t.Op?
    requires input != [] && input[0] == t.sym && Tokens(input) == PrefixTokens(t)
    ensures Dispatch(input) == Some(Got(Shape(t)))
  {
    var ts := PrefixTokens(t);
    assert Detect(input) == ViaPrefix;
    assert Dispatch(input) == Some(PrefixBuild(ts).0);
    PrefixTokensParse(t, []);
    assert ts + [] == ts;
  }

  /** A lone digit read by the postfix builder is that leaf. */
  lemma LeafParse(v: int)
    requires 0 <= v <= 9
    ensures PostfixBuild([DigitChar(v)]) == (Got(Leaf(v)), [])
  {
    var c := DigitChar(v);
    assert [c][0] == c && [c][1..] == [];
    assert DigitValue(c) == v;
    assert PostfixRun([c], []) == PostfixRun([], [] + [Leaf(v)]);
  }

  lemma PostfixStringFills(t: Node)
    requires WellFormed(t)
    ensures Dispatch(Strip(PostfixString(t))) == Some(Got(Shape(t)))
  {
    var input := Strip(PostfixString(t));
    var ts := PostfixTokens(t);
    assert input != [] && IsDigit(input[0]) && Tokens(input) == ts by {
      PostfixStringTokens(t);
      PostfixStartsWithDigit(t);
      FirstOfStripped(PostfixString(t), ts);
    }
    assert Dispatch(input) == Some(PostfixBuild(ts).0);
    assert PostfixBuild(ts) == (Got(Shape(t)), []) by {
      PostfixTokensParse(t, [], []);
      assert ts + [] == ts;
    }
  }


  /** Infix text rebuilds the tree; a bare digit again takes the postfix route. */
  lemma InfixStringFills(t: Node)
    requires WellFormed(t)
    ensures Dispatch(Strip(InfixString(t))) == Some(Got(Shape(t)))
  {
    var input := Strip(InfixString(t));
    assert input != [] && input[0] == InfixTokens(t)[0] && Tokens(input) == InfixTokens(t) by {
      InfixStringTokens(t);
      FirstOfStripped(InfixString(t), InfixTokens(t));
    }
    InfixInputFills(t, input);
  }

  /** Text whose non-blank characters are an infix rendering, and which starts
      with the first of them, rebuilds the tree. */
  lemma InfixInputFills(t: Node, input: seq<char>)
    requires WellFormed(t)
    requires input != [] && input[0] == InfixTokens(t)[0] && Tokens(input) == InfixTokens(t)
    ensures Dispatch(input) == Some(Got(Shape(t)))
  {
    if t.Leaf? {
      LeafFills(input, t.v);
    } else {
      assert Detect(input) == ViaInfix;
      assert Dispatch(input) == Some(InfixBuild(InfixTokens(t)).0);
      InfixTokensParse(t);
    }
  }

  function Size(t: Node): nat
  {
    match t
    case Leaf(_) => 1
    case Op(_, l, r, _, _) => Size(l) + Size(r) + 1
  }
}
