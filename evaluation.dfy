/** `Node.evaluate`: a post-order walk that threads an order counter, writes
    each operator's value and evaluation order into the node, and gives up
    past ten operators or on a zero divisor. Writing into the nodes is
    modelled by returning the updated tree. */
module Evaluation {
  import opened Options
  import opened Text
  import opened Tree

  /** The error lines the evaluator prints. */
  datatype EvalError = TooManyOperators | DivisionByZero | ModuloZero

  /** The updated tree, the value (`None` on failure), the counter handed
      back (0 on failure) and the error lines printed on the way. */
  datatype Evaluated = Evaluated(node: Node, value: Option<real>, next: int, errors: seq<EvalError>)

  const MaxOrderAllowed := 10

  /** Python's `%` on numbers: the remainder takes the sign of the divisor. */
  function FlooredMod(a: real, b: real): (m: real)
    requires b != 0.0
    ensures b > 0.0 ==> 0.0 <= m < b
    ensures b < 0.0 ==> b < m <= 0.0
    ensures ((a - m) / b).Floor as real == (a - m) / b
  {
    var k := (a / b).Floor;
    FloorRemainder(a, b, k);
    a - b * (k as real)
  }

  /** Taking `floor(a / b)` copies of `b` away from `a` leaves a remainder
      between 0 and `b`. */
  lemma FloorRemainder(a: real, b: real, k: int)
    requires b != 0.0 && k == (a / b).Floor
    ensures var m := a - b * (k as real);
      && (b > 0.0 ==> 0.0 <= m < b)
      && (b < 0.0 ==> b < m <= 0.0)
      && (a - m) / b == k as real
  {
    var x := a / b;
    var f := x - k as real;
    var m := a - b * (k as real);
    assert m == b * f by {
      Distribute(a, b, x, k as real);
    }
    FractionRange(b, f);
    assert a - m == b * (k as real);
    DivideBack(a - m, b, k as real);
  }

  lemma Distribute(a: real, b: real, x: real, y: real)
    requires b != 0.0 && x == a / b
    ensures a - b * y == b * (x - y)
  {
    assert a == b * x;
  }

  /** A fraction in [0, 1) of `b` lies between 0 and `b`. */
  lemma FractionRange(b: real, f: real)
    requires 0.0 <= f < 1.0
    ensures b > 0.0 ==> 0.0 <= b * f < b
    ensures b < 0.0 ==> b < b * f <= 0.0
  {
    if b > 0.0 {
      assert b * f < b * 1.0;
    } else if b < 0.0 {
      assert b * f - b == (-b) * (1.0 - f);
      assert (-b) * (1.0 - f) > 0.0;
      assert (-b) * f >= 0.0;
    }
  }

  lemma DivideBack(c: real, b: real, y: real)
    requires b != 0.0 && c == b * y
    ensures c / b == y
  {
  }

  /** The value an operator node stores. A symbol outside the five leaves the
      stored value untouched, as no branch of the source assigns it. */
  function Apply(sym: char, a: real, b: real, current: real): (r: real)
    requires (sym == '/' || sym == '%') ==> b != 0.0
    ensures sym == '+' ==> r == a + b
    ensures sym == '*' ==> r == a * b
    ensures sym == '-' ==> r + b == a
    ensures sym == '/' ==> r * b == a
    ensures sym == '%' && b > 0.0 ==> 0.0 <= r < b
    ensures sym == '%' && b < 0.0 ==> b < r <= 0.0
    ensures sym == '%' ==> ((a - r) / b).Floor as real == (a - r) / b
    ensures !IsOperator(sym) ==> r == current
  {
    if sym == '+' then a + b
    else if sym == '*' then a * b
    else if sym == '-' then a - b
    else if sym == '/' then a / b
    else if sym == '%' then FlooredMod(a, b)
    else current
  }

  function Evaluate(n: Node, order: int): (r: Evaluated)
    ensures Shape(r.node) == Shape(n)
    ensures r.value.None? <==> r.errors != []
    ensures r.value.None? ==> r.next == 0
  {
    if order > MaxOrderAllowed then Evaluated(n, None, 0, [TooManyOperators])
    else
      match n
      case Leaf(v) => Evaluated(n, Some(v as real), order, [])
      case Op(s, l, r, val, stamp) =>
        var el := Evaluate(l, order);
        var er := Evaluate(r, el.next);
        var errs := el.errors + er.errors;
        if el.value.None? || er.value.None? then
          Evaluated(Op(s, el.node, er.node, val, stamp), None, 0, errs)
        else
          var a, b, o := el.value.value, er.value.value, er.next;
          if s == '/' && b == 0.0 then
            Evaluated(Op(s, el.node, er.node, val, o), None, 0, [DivisionByZero])
          else if s == '%' && b == 0.0 then
            Evaluated(Op(s, el.node, er.node, val, o), None, 0, [ModuloZero])
          else
            var x := Apply(s, a, b, val);
            Evaluated(Op(s, el.node, er.node, x, o), Some(x), o + 1, [])
  }

  // ------------------------------------------------------ reference meanings

  /** The value of the expression, ignoring the operator ceiling: fails only
      on a zero divisor. */
  function Denote(n: Node): Option<real>
  {
    match n
    case Leaf(v) => Some(v as real)
    case Op(s, l, r, val, _) =>
      match (Denote(l), Denote(r))
      case (Some(a), Some(b)) =>
        if (s == '/' || s == '%') && b == 0.0 then None else Some(Apply(s, a, b, val))
      case _ => None
  }

  /** Every node is entered with a counter of at most ten, when evaluation
      starts at `k`: the left subtree is entered with `k`, the right one once
      the left subtree's operators are done. */
  predicate WithinLimit(n: Node, k: int)
  {
    k <= MaxOrderAllowed &&
    match n
    case Leaf(_) => true
    case Op(_, l, r, _, _) => WithinLimit(l, k) && WithinLimit(r, k + OpCount(l))
  }

  /** The operators carry the orders k, k+1, ... in post-order. */
  predicate Numbered(t: Node, k: int)
  {
    match t
    case Leaf(_) => true
    case Op(_, l, r, _, o) =>
      Numbered(l, k) && Numbered(r, k + OpCount(l)) && o == k + OpCount(l) + OpCount(r)
  }

  /** Every operator holds the value of the expression below it. */
  predicate ValuesStored(t: Node)
  {
    match t
    case Leaf(_) => true
    case Op(_, l, r, v, _) => Denote(t) == Some(v) && ValuesStored(l) && ValuesStored(r)
  }

  // ------------------------------------------------------------------ lemmas

  /** Evaluation succeeds exactly when the ceiling is respected and no zero
      divisor is met, with the reference value; on success the counter has
      advanced by the number of operators and they are numbered from `k` in
      post-order. */
  lemma {:induction false} EvaluateMeaning(n: Node, k: int)
    ensures var e := Evaluate(n, k);
      && e.value == (if WithinLimit(n, k) then Denote(n) else None)
      && (e.value.Some? ==> e.next == k + OpCount(n) && Numbered(e.node, k))
  {
    if k <= MaxOrderAllowed {
      match n
      case Leaf(_) =>
      case Op(s, l, r, val, _) =>
        var el := Evaluate(l, k);
        assert el.value == (if WithinLimit(l, k) then Denote(l) else None)
          && (el.value.Some? ==> el.next == k + OpCount(l) && Numbered(el.node, k)) by {
          EvaluateMeaning(l, k);
        }
        var er := Evaluate(r, el.next);
        assert er.value == (if WithinLimit(r, el.next) then Denote(r) else None)
          && (er.value.Some? ==> er.next == el.next + OpCount(r) && Numbered(er.node, el.next)) by {
          EvaluateMeaning(r, el.next);
        }
        if el.value.Some? && er.value.Some? {
          ShapeOpCount(el.node, l);
          ShapeOpCount(er.node, r);
        }
    }
  }

  /** A successful evaluation leaves in every operator node the value of the
      expression below it, the whole tree's value at the root. */
  lemma {:induction false} EvaluateStores(n: Node, k: int)
    ensures var e := Evaluate(n, k);
      e.value.Some? ==> Denote(e.node) == e.value && ValuesStored(e.node)
  {
    if k <= MaxOrderAllowed {
      match n
      case Leaf(_) =>
      case Op(s, l, r, val, _) =>
        var el := Evaluate(l, k);
        var er := Evaluate(r, el.next);
        EvaluateStores(l, k);
        EvaluateStores(r, el.next);
        if el.value.Some? && er.value.Some? && !((s == '/' || s == '%') && er.value.value == 0.0) {
          var a, b := el.value.value, er.value.value;
          var x := Apply(s, a, b, val);
          assert Apply(s, a, b, x) == x;
          assert Evaluate(n, k).node == Op(s, el.node, er.node, x, er.next);
        }
    }
  }

  /** An expression without a zero divisor can only fail on the ceiling: every
      error line is then "too many operators". */
  lemma {:induction false} ErrorsFromCeiling(n: Node, k: int)
    requires Denote(n).Some?
    ensures forall i :: 0 <= i < |Evaluate(n, k).errors| ==> Evaluate(n, k).errors[i] == TooManyOperators
  {
    if k <= MaxOrderAllowed {
      match n
      case Leaf(_) =>
      case Op(s, l, r, val, _) =>
        var el := Evaluate(l, k);
        var er := Evaluate(r, el.next);
        var e := Evaluate(n, k);
        assert Denote(l).Some? && Denote(r).Some?;
        ErrorsFromCeiling(l, k);
        ErrorsFromCeiling(r, el.next);
        assert forall i :: 0 <= i < |el.errors| ==> el.errors[i] == TooManyOperators;
        assert forall i :: 0 <= i < |er.errors| ==> er.errors[i] == TooManyOperators;
        if el.value.None? || er.value.None? {
          assert e.errors == el.errors + er.errors;
        } else {
          assert er.value == Denote(r) by {
            EvaluateMeaning(r, el.next);
          }
          assert e.errors == [];
        }
    }
  }

  /** In a tree whose values are stored, so is every operator along the
      post-order. */
  lemma {:induction false} StoredPostOrder(t: Node)
    requires ValuesStored(t)
    ensures forall i :: 0 <= i < |PostOrderOps(t)| ==> ValuesStored(PostOrderOps(t)[i])
  {
    match t
    case Leaf(_) =>
    case Op(_, l, r, _, _) =>
      StoredPostOrder(l);
      StoredPostOrder(r);
      var pl, pr := PostOrderOps(l), PostOrderOps(r);
      forall i | 0 <= i < |PostOrderOps(t)|
        ensures ValuesStored(PostOrderOps(t)[i])
      {
        if i < |pl| {
          assert PostOrderOps(t)[i] == pl[i];
        } else if i < |pl| + |pr| {
          assert PostOrderOps(t)[i] == pr[i - |pl|];
        }
      }
  }

  lemma {:induction false} ShapeOpCount(a: Node, b: Node)
    requires Shape(a) == Shape(b)
    ensures OpCount(a) == OpCount(b)
  {
    match a
    case Leaf(_) =>
    case Op(_, l, r, _, _) =>
      ShapeOpCount(l, b.left);
      ShapeOpCount(r, b.right);
  }

  /** Numbering from `k` lists the orders k, k+1, ..., k+K-1 along the
      post-order: a permutation of that range, increasing in post-order. */
  lemma {:induction false} NumberedPostOrder(t: Node, k: int)
    requires Numbered(t, k)
    ensures forall i :: 0 <= i < |PostOrderOps(t)| ==> PostOrderOps(t)[i].Op? && PostOrderOps(t)[i].order == k + i
  {
    match t
    case Leaf(_) =>
    case Op(_, l, r, _, _) =>
      NumberedPostOrder(l, k);
      NumberedPostOrder(r, k + OpCount(l));
      var pl, pr := PostOrderOps(l), PostOrderOps(r);
      assert PostOrderOps(t) == pl + pr + [t];
      forall i | 0 <= i < |PostOrderOps(t)|
        ensures PostOrderOps(t)[i].Op? && PostOrderOps(t)[i].order == k + i
      {
        if i < |pl| {
          assert PostOrderOps(t)[i] == pl[i];
        } else if i < |pl| + |pr| {
          assert PostOrderOps(t)[i] == pr[i - |pl|];
        }
      }
  }

  /** With numbering from 1 or more, an operator's order is the largest in
      its subtree: both children finish before their parent. */
  lemma {:induction false} NumberedParentLast(t: Node, k: int)
    requires Numbered(t, k) && k >= 1
    ensures MaxOrder(t) == if t.Op? then k + OpCount(t) - 1 else 0
    ensures t.Op? ==> MaxOrder(t.left) < t.order && MaxOrder(t.right) < t.order
  {
    match t
    case Leaf(_) =>
    case Op(_, l, r, _, _) =>
      NumberedParentLast(l, k);
      NumberedParentLast(r, k + OpCount(l));
  }

  /** Re-running the evaluation on the tree it left behind repeats it exactly:
      same value, same counter, same messages, and every field it writes gets
      the value it already holds. */
  lemma {:induction false} EvaluateIdempotent(n: Node, k: int)
    ensures Evaluate(Evaluate(n, k).node, k) == Evaluate(n, k)
  {
    if k <= MaxOrderAllowed {
      match n
      case Leaf(_) =>
      case Op(s, l, r, val, _) =>
        var el := Evaluate(l, k);
        var er := Evaluate(r, el.next);
        EvaluateIdempotent(l, k);
        EvaluateIdempotent(r, el.next);
        var e := Evaluate(n, k);
        assert e.node.left == el.node && e.node.right == er.node;
        assert Evaluate(e.node.left, k) == el;
        assert Evaluate(e.node.right, el.next) == er;
        if el.value.Some? && er.value.Some? && !((s == '/' || s == '%') && er.value.value == 0.0) {
          var x := Apply(s, el.value.value, er.value.value, val);
          assert e.node.val == x;
          assert Apply(s, el.value.value, er.value.value, x) == x;
        }
    }
  }

  /** A tree with at most ten operators never reaches the ceiling when
      evaluation starts at 1. */
  lemma {:induction false} FewOperatorsFit(t: Node, k: int)
    requires k <= MaxOrderAllowed && k + OpCount(t) <= MaxOrderAllowed + 1
    ensures WithinLimit(t, k)
  {
    match t
    case Leaf(_) =>
    case Op(_, l, r, _, _) =>
      FewOperatorsFit(l, k);
      FewOperatorsFit(r, k + OpCount(l));
  }

  // ------------------------------------------- where the ceiling really bites

  /** `((1 + 1) + 1) + ...` with `m` operators. */
  function LeftChain(m: nat): (t: Node)
    ensures OpCount(t) == m
  {
    if m == 0 then Leaf(1) else Op('+', LeftChain(m - 1), Leaf(1), 0.0, 0)
  }

  /** `1 + (1 + (1 + ...))` with `m` operators. */
  function RightChain(m: nat): (t: Node)
    ensures OpCount(t) == m
  {
    if m == 0 then Leaf(1) else Op('+', Leaf(1), RightChain(m - 1), 0.0, 0)
  }

  /** A left-leaning chain fits exactly when its last right operand is
      entered with a counter of at most ten. */
  lemma {:induction false} LeftChainLimit(m: nat, k: int)
    ensures WithinLimit(LeftChain(m), k) <==> k <= MaxOrderAllowed && k + m <= MaxOrderAllowed + 1
  {
    if m > 0 {
      LeftChainLimit(m - 1, k);
      var t := LeftChain(m);
      assert t.left == LeftChain(m - 1) && t.right == Leaf(1);
      assert WithinLimit(t, k) == (k <= MaxOrderAllowed && WithinLimit(t.left, k) && WithinLimit(t.right, k + m - 1));
    }
  }

  /** A right-leaning chain enters every node with its starting counter, so
      it fits however long it is. */
  lemma {:induction false} RightChainLimit(m: nat, k: int)
    ensures WithinLimit(RightChain(m), k) <==> k <= MaxOrderAllowed
  {
    var t := RightChain(m);
    if m == 0 {
      assert t == Leaf(1);
    } else {
      assert t == Op('+', Leaf(1), RightChain(m - 1), 0.0, 0);
      RightChainLimit(m - 1, k);
      assert WithinLimit(t.left, k) <==> k <= MaxOrderAllowed;
      assert OpCount(t.left) == 0;
    }
  }

  lemma {:induction false} LeftChainValue(m: nat)
    ensures Denote(LeftChain(m)) == Some((m + 1) as real)
  {
    if m > 0 {
      LeftChainValue(m - 1);
      var t := LeftChain(m);
      assert t.left == LeftChain(m - 1) && t.right == Leaf(1) && t.sym == '+';
      assert Denote(t) == Some(Apply('+', m as real, 1.0, 0.0));
    }
  }

  lemma {:induction false} RightChainValue(m: nat)
    ensures Denote(RightChain(m)) == Some((m + 1) as real)
  {
    if m > 0 {
      RightChainValue(m - 1);
      var t := RightChain(m);
      assert t.right == RightChain(m - 1) && t.left == Leaf(1) && t.sym == '+';
      assert Denote(t) == Some(Apply('+', 1.0, m as real, 0.0));
    }
  }

  /** Eleven operators: the left-leaning chain is refused, the right-leaning
      one is evaluated in full. */
  lemma ElevenOperators()
    ensures Evaluate(LeftChain(11), 1).value == None
    ensures var errors := Evaluate(LeftChain(11), 1).errors;
      errors != [] && forall i :: 0 <= i < |errors| ==> errors[i] == TooManyOperators
    ensures Evaluate(RightChain(11), 1).value == Some(12.0)
  {
    var left, right := LeftChain(11), RightChain(11);
    assert Evaluate(left, 1).value == None by {
      EvaluateMeaning(left, 1);
      LeftChainLimit(11, 1);
    }
    assert Denote(left).Some? by {
      LeftChainValue(11);
    }
    ErrorsFromCeiling(left, 1);
    assert Evaluate(right, 1).value == Some(12.0) by {
      EvaluateMeaning(right, 1);
      RightChainLimit(11, 1);
      RightChainValue(11);
    }
  }
}
