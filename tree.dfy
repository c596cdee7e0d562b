/** The expression tree (`Node`) and its three textual renderings. */
module Tree {
  import opened Text

  /** A node is a leaf holding a literal (`op == ' '` in the source) or an
      operator with exactly two children. `val` and `order` are the fields the
      evaluator writes; a freshly built operator carries 0 in both. A leaf's
      `order` stays at its default 0 and is never written, so it has no field. */
  datatype Node =
    | Leaf(v: int)
    | Op(sym: char, left: Node, right: Node, val: real, order: int)

  /** The node as a builder creates it: same structure, no evaluation stamps. */
  function Shape(t: Node): (r: Node)
    ensures r.Leaf? == t.Leaf?
    ensures r.Op? ==> r.sym == t.sym && r.val == 0.0 && r.order == 0
  {
    match t
    case Leaf(v) => Leaf(v)
    case Op(s, l, r, _, _) => Op(s, Shape(l), Shape(r), 0.0, 0)
  }

  /** What the builders can produce: single-digit leaves and the five operators. */
  predicate WellFormed(t: Node)
  {
    match t
    case Leaf(v) => 0 <= v <= 9
    case Op(s, l, r, _, _) => IsOperator(s) && WellFormed(l) && WellFormed(r)
  }

  function OpCount(t: Node): nat
  {
    match t
    case Leaf(_) => 0
    case Op(_, l, r, _, _) => OpCount(l) + OpCount(r) + 1
  }

  /** The operator nodes in post-order: left subtree, right subtree, node. */
  function PostOrderOps(t: Node): (r: seq<Node>)
    ensures |r| == OpCount(t)
  {
    match t
    case Leaf(_) => []
    case Op(_, l, r, _, _) => PostOrderOps(l) + PostOrderOps(r) + [t]
  }

  /** The largest `order` stamp in the tree (a leaf's is 0). */
  function MaxOrder(t: Node): int
  {
    match t
    case Leaf(_) => 0
    case Op(_, l, r, _, o) =>
      var m := if MaxOrder(l) < MaxOrder(r) then MaxOrder(r) else MaxOrder(l);
      if m < o then o else m
  }

  // ---------------------------------------------------------------- renderers

  /** `toPrefixString`: operator, then both operands, separated by single spaces. */
  function PrefixString(t: Node): (r: string)
    ensures r != []
    ensures t.Op? ==> r[0] == t.sym
    ensures t.Leaf? && 0 <= t.v <= 9 ==> r == [DigitChar(t.v)]
  {
    match t
    case Leaf(v) => IntToString(v)
    case Op(s, l, r, _, _) => [s] + " " + PrefixString(l) + " " + PrefixString(r)
  }

  /** `toPostfixString`: both operands, then the operator; every token is
      followed by one space. */
  function PostfixString(t: Node): (r: string)
    ensures |r| >= 2 && r[|r| - 1] == ' '
    ensures t.Op? ==> r[|r| - 2] == t.sym
    ensures t.Leaf? && 0 <= t.v <= 9 ==> r == [DigitChar(t.v), ' ']
  {
    match t
    case Leaf(v) => IntToString(v) + " "
    case Op(s, l, r, _, _) => PostfixString(l) + PostfixString(r) + [s] + " "
  }

  /** `toInfixString`: every operation in its own parentheses. */
  function InfixString(t: Node): (r: string)
    ensures r != []
    ensures t.Op? ==> r[0] == '(' && r[|r| - 1] == ')'
    ensures t.Leaf? && 0 <= t.v <= 9 ==> r == [DigitChar(t.v)]
  {
    match t
    case Leaf(v) => IntToString(v)
    case Op(s, l, r, _, _) => "(" + InfixString(l) + " " + [s] + " " + InfixString(r) + ")"
  }

  // ----------------------------------------- the renderings as a reader sees them

  function PrefixTokens(t: Node): seq<char>
    requires WellFormed(t)
  {
    match t
    case Leaf(v) => [DigitChar(v)]
    case Op(s, l, r, _, _) => [s] + PrefixTokens(l) + PrefixTokens(r)
  }

  function PostfixTokens(t: Node): seq<char>
    requires WellFormed(t)
  {
    match t
    case Leaf(v) => [DigitChar(v)]
    case Op(s, l, r, _, _) => PostfixTokens(l) + PostfixTokens(r) + [s]
  }

  function InfixTokens(t: Node): seq<char>
    requires WellFormed(t)
  {
    match t
    case Leaf(v) => [DigitChar(v)]
    case Op(s, l, r, _, _) => ['('] + InfixTokens(l) + [s] + InfixTokens(r) + [')']
  }

  lemma DigitTokens(d: int)
    requires 0 <= d <= 9
    ensures Tokens(IntToString(d)) == [DigitChar(d)]
  {
    assert IntToString(d) == [DigitChar(d)];
  }

  lemma OperatorTokens(s: char)
    requires IsOperator(s)
    ensures Tokens([s]) == [s] && Tokens([s] + " ") == [s] && Tokens(" " + [s] + " ") == [s]
  {
    assert Tokens(" ") == [];
    TokensAppend([s], " ");
    TokensAppend(" ", [s] + " ");
  }

  /** The prefix rendering of a well-formed tree is one character per node,
      operators first: blanks only separate. */
  lemma {:induction false} PrefixStringTokens(t: Node)
    requires WellFormed(t)
    ensures Tokens(PrefixString(t)) == PrefixTokens(t)
  {
    match t
    case Leaf(v) => DigitTokens(v);
    case Op(s, l, r, _, _) =>
      PrefixStringTokens(l);
      PrefixStringTokens(r);
      SpacedTokens(s, PrefixString(l), PrefixString(r));
  }

  /** The single blanks after an operator and between its operands vanish. */
  lemma SpacedTokens(s: char, a: string, b: string)
    requires !IsSpace(s)
    ensures Tokens([s] + " " + a + " " + b) == [s] + Tokens(a) + Tokens(b)
  {
    assert Tokens(" ") == [];
    assert Tokens([s]) == [s];
    var p1 := [s] + " ";
    TokensAppend([s], " ");
    var p2 := p1 + a;
    TokensAppend(p1, a);
    var p3 := p2 + " ";
    TokensAppend(p2, " ");
    TokensAppend(p3, b);
  }

  lemma {:induction false} PostfixStringTokens(t: Node)
    requires WellFormed(t)
    ensures Tokens(PostfixString(t)) == PostfixTokens(t)
  {
    match t
    case Leaf(v) =>
      DigitTokens(v);
      assert Tokens(" ") == [];
      TokensAppend(IntToString(v), " ");
    case Op(s, l, r, _, _) =>
      PostfixStringTokens(l);
      PostfixStringTokens(r);
      OperatorTokens(s);
      TokensAppend(PostfixString(l), PostfixString(r));
      TokensAppend(PostfixString(l) + PostfixString(r), [s] + " ");
      assert PostfixString(t) == PostfixString(l) + PostfixString(r) + ([s] + " ");
  }

  lemma {:induction false} InfixStringTokens(t: Node)
    requires WellFormed(t)
    ensures Tokens(InfixString(t)) == InfixTokens(t)
  {
    match t
    case Leaf(v) => DigitTokens(v);
    case Op(s, l, r, _, _) =>
      InfixStringTokens(l);
      InfixStringTokens(r);
      BracketTokens(InfixString(l), s, InfixString(r));
  }

  /** The blanks around an operator inside parentheses vanish. */
  lemma BracketTokens(a: string, s: char, b: string)
    requires !IsSpace(s)
    ensures Tokens("(" + a + " " + [s] + " " + b + ")") == ['('] + Tokens(a) + [s] + Tokens(b) + [')']
  {
    assert Tokens(" ") == [];
    assert Tokens([s]) == [s];
    assert Tokens("(") == ['('];
    assert Tokens(")") == [')'];
    var p1 := "(" + a;
    TokensAppend("(", a);
    var p2 := p1 + " ";
    TokensAppend(p1, " ");
    var p3 := p2 + [s];
    TokensAppend(p2, [s]);
    var p4 := p3 + " ";
    TokensAppend(p3, " ");
    var p5 := p4 + b;
    TokensAppend(p4, b);
    TokensAppend(p5, ")");
  }
}
