/** Worked inputs: each line of text goes through detection, building and
    evaluation as the program does, and the lines that evaluate to a value
    through narration too. */
module Scenarios {
  import opened Options
  import opened Text
  import opened Tree
  import opened Builders
  import opened Evaluation
  import opened Narration
  import RoundTrip

  /** `5 + ((1 + 2) * 4)` */
  const Sum: Node := Op('+', Leaf(5), Op('*', Op('+', Leaf(1), Leaf(2), 0.0, 0), Leaf(4), 0.0, 0), 0.0, 0)

  /** `Sum` after evaluation: 1 + 2 first, then the product, then the sum. */
  const SumInner: Node := Op('+', Leaf(1), Leaf(2), 3.0, 1)
  const SumProduct: Node := Op('*', SumInner, Leaf(4), 12.0, 2)
  const SumStamped: Node := Op('+', Leaf(5), SumProduct, 17.0, 3)

  /** `3 + (4 * 2)` */
  const Nested: Node := Op('+', Leaf(3), Op('*', Leaf(4), Leaf(2), 0.0, 0), 0.0, 0)

  /** `Nested` after evaluation: the product first, then the sum. */
  const NestedProduct: Node := Op('*', Leaf(4), Leaf(2), 8.0, 1)
  const NestedStamped: Node := Op('+', Leaf(3), NestedProduct, 11.0, 2)

  /** `4 / 0` */
  const Quotient: Node := Op('/', Leaf(4), Leaf(0), 0.0, 0)

  /** The sample trees as the renderers write them. */
  lemma SumRendering()
    ensures PostfixString(Sum) == "5 1 2 + 4 * + "
  {
    assert PostfixString(Leaf(1)) == "1 " && PostfixString(Leaf(2)) == "2 ";
    assert PostfixString(Leaf(4)) == "4 " && PostfixString(Leaf(5)) == "5 ";
    assert PostfixString(Sum.right.left) == "1 2 + ";
    assert PostfixString(Sum.right) == "1 2 + 4 * ";
  }

  lemma QuotientRendering()
    ensures PrefixString(Quotient) == "/ 4 0"
  {
  }

  lemma NestedRendering()
    ensures InfixString(Nested) == "(3 + (4 * 2))"
  {
    assert InfixString(Nested.right) == "(4 * 2)";
  }

  /** The postfix line `5 1 2 + 4 * +` builds `5 + ((1 + 2) * 4)`. */
  lemma PostfixSumText()
    ensures Dispatch(Strip(PostfixString(Sum))) == Some(Got(Sum))
  {
    RoundTrip.PostfixStringFills(Sum);
  }

  /** `5 + ((1 + 2) * 4)` is worth 17. */
  lemma SumSeventeen()
    ensures Evaluate(Sum, 1) == Evaluated(SumStamped, Some(17.0), 4, [])
  {
    assert Evaluate(Sum.right.left, 1) == Evaluated(SumInner, Some(3.0), 2, []);
    assert Evaluate(Sum.right, 1) == Evaluated(SumProduct, Some(12.0), 3, []);
  }

  /** Its narration: `1 + 2` first, then the product, then the sum. */
  lemma SumNarration()
    ensures Narrate(SumStamped) == [SumInner, SumProduct, SumStamped]
  {
    assert Evaluate(Sum, 1).node == SumStamped && Evaluate(Sum, 1).value.Some? by {
      SumSeventeen();
    }
    assert Narrate(SumStamped) == PostOrderOps(SumStamped) by {
      NarrationFollowsEvaluation(Sum);
    }
    assert PostOrderOps(SumProduct) == [SumInner, SumProduct];
  }

  /** The prefix line `/ 4 0` builds a quotient. */
  lemma PrefixQuotientText()
    ensures Dispatch(Strip(PrefixString(Quotient))) == Some(Got(Quotient))
  {
    RoundTrip.PrefixStringFills(Quotient);
  }

  /** Its evaluation stops with a division-by-zero error and no value; the
      order is stamped all the same. */
  lemma QuotientByZero()
    ensures Evaluate(Quotient, 1) == Evaluated(Op('/', Leaf(4), Leaf(0), 0.0, 1), None, 0, [DivisionByZero])
  {
  }

  /** The infix line `(3 + (4 * 2))` builds `3 + (4 * 2)`. */
  lemma InfixNestedText()
    ensures Dispatch(Strip(InfixString(Nested))) == Some(Got(Nested))
  {
    RoundTrip.InfixStringFills(Nested);
  }

  /** `3 + (4 * 2)` is worth 11. */
  lemma NestedEleven()
    ensures Evaluate(Nested, 1) == Evaluated(NestedStamped, Some(11.0), 3, [])
  {
    assert Evaluate(Nested.right, 1) == Evaluated(NestedProduct, Some(8.0), 2, []);
  }

  /** Its narration: the product first, then the sum. */
  lemma NestedNarration()
    ensures Narrate(NestedStamped) == [NestedProduct, NestedStamped]
  {
    assert Evaluate(Nested, 1).node == NestedStamped && Evaluate(Nested, 1).value.Some? by {
      NestedEleven();
    }
    assert Narrate(NestedStamped) == PostOrderOps(NestedStamped) by {
      NarrationFollowsEvaluation(Nested);
    }
    assert PostOrderOps(NestedProduct) == [NestedProduct];
  }

  /** An operation whose right operand is itself an operation on two
      leaves, as in `(3 + (4 * 2))`: once evaluated, the narration reports
      the inner operation first and the outer one second. */
  lemma {:induction false} InnerOperationNarratedFirst(s: char, a: int, inner: char, b: int, c: int)
    requires Evaluate(Op(s, Leaf(a), Op(inner, Leaf(b), Leaf(c), 0.0, 0), 0.0, 0), 1).value.Some?
    ensures var t := Evaluate(Op(s, Leaf(a), Op(inner, Leaf(b), Leaf(c), 0.0, 0), 0.0, 0), 1).node;
      Narrate(t) == [t.right, t] && t.right.order == 1 && t.order == 2
  {
    var n := Op(s, Leaf(a), Op(inner, Leaf(b), Leaf(c), 0.0, 0), 0.0, 0);
    var t := Evaluate(n, 1).node;
    NarrationFollowsEvaluation(n);
    assert Shape(t) == Shape(n);
    assert t.left.Leaf? && t.right.left.Leaf? && t.right.right.Leaf?;
    assert PostOrderOps(t.right) == [t.right];
  }

  /** The line `5` is a postfix expression of one leaf: worth 5, nothing to
      narrate. */
  lemma SingleLeaf()
    ensures Dispatch(Strip(PostfixString(Leaf(5)))) == Some(Got(Leaf(5)))
    ensures Evaluate(Leaf(5), 1).value == Some(5.0)
    ensures Narrate(Leaf(5)) == []
  {
    RoundTrip.PostfixStringFills(Leaf(5));
  }
}
