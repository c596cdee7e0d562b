/** `Node.narrate`: which operator nodes the narration reports, and in what
    order. The English wording (ordinal words, operand descriptions, rounded
    numbers) is display only; each reported node carries everything a
    sentence is made from: its order, symbol and value, and its children. */
module Narration {
  import opened Tree
  import opened Evaluation

  /** A call on a node other than the root: the node itself if its order is
      `o`, otherwise everything found in the right subtree followed by
      everything found in the left subtree. */
  function Search(n: Node, o: int): (r: seq<Node>)
    ensures r != [] ==> o <= MaxOrder(n)
    ensures forall i :: 0 <= i < |r| ==> r[i].Op? && r[i].order == o
  {
    match n
    case Leaf(_) => []
    case Op(_, l, rt, _, ord) =>
      if ord == o then [n] else Search(rt, o) + Search(l, o)
  }

  /** A call on the root for order `o`: the root itself ends the narration
      when its order is `o`; otherwise the right subtree is searched first and
      the left one only if the right one had nothing, and when either found
      something the root moves on to `o + 1`. */
  function NarrateFrom(root: Node, o: int): (r: seq<Node>)
    ensures forall i :: 0 <= i < |r| ==> r[i].Op? && o <= r[i].order <= MaxOrder(root)
    decreases MaxOrder(root) - o + 1
  {
    match root
    case Leaf(_) => []
    case Op(_, l, rt, _, ord) =>
      if ord == o then [root]
      else
        var fromRight := Search(rt, o);
        if fromRight != [] then fromRight + NarrateFrom(root, o + 1)
        else
          var fromLeft := Search(l, o);
          if fromLeft != [] then fromLeft + NarrateFrom(root, o + 1) else []
  }

  /** `root.narrate(root)`: starts at order 1. */
  function Narrate(root: Node): (r: seq<Node>)
    ensures forall i :: 0 <= i < |r| ==> r[i].Op? && 1 <= r[i].order <= MaxOrder(root)
  {
    NarrateFrom(root, 1)
  }

  /** In a tree numbered from `k` in post-order, a search for `o` finds the
      one operator with that order, if there is one. */
  lemma {:induction false} SearchNumbered(t: Node, k: int, o: int)
    requires Numbered(t, k)
    ensures Search(t, o) == if k <= o < k + OpCount(t) then [PostOrderOps(t)[o - k]] else []
  {
    match t
    case Leaf(_) =>
    case Op(_, l, r, _, ord) =>
      var pl, pr := PostOrderOps(l), PostOrderOps(r);
      var m := k + |pl|;
      assert Search(l, o) == if k <= o < m then [pl[o - k]] else [] by {
        SearchNumbered(l, k, o);
      }
      assert Search(r, o) == if m <= o < m + |pr| then [pr[o - m]] else [] by {
        SearchNumbered(r, m, o);
      }
      assert PostOrderOps(t) == pl + pr + [t];
      if k <= o <= m + |pr| {
        IndexThree(pl, pr, t, o - k);
      }
  }

  lemma IndexThree<T>(a: seq<T>, b: seq<T>, x: T, i: int)
    requires 0 <= i <= |a| + |b|
    ensures (a + b + [x])[i] == if i < |a| then a[i] else if i < |a| + |b| then b[i - |a|] else x
  {
  }

  /** From order `o` on, the narration of a tree numbered from 1 reports the
      operators with orders o, o+1, ..., K, one each. */
  lemma {:induction false} NarrateFromNumbered(t: Node, o: int)
    requires Numbered(t, 1) && 1 <= o
    ensures NarrateFrom(t, o) == if o <= OpCount(t) then PostOrderOps(t)[o - 1..] else []
    decreases OpCount(t) - o + 1
  {
    match t
    case Leaf(_) =>
    case Op(_, l, r, _, ord) =>
      SearchNumbered(l, 1, o);
      SearchNumbered(r, 1 + OpCount(l), o);
      if o < ord {
        NarrateFromNumbered(t, o + 1);
        NarrateStep(t, o);
      } else if o == ord {
        assert PostOrderOps(t)[o - 1..] == [t];
      } else {
        assert Search(r, o) == [] && Search(l, o) == [];
      }
  }

  /** An operator below the root, with order `o`, is reported just before
      everything from `o + 1` on. */
  lemma {:induction false} NarrateStep(t: Node, o: int)
    requires Numbered(t, 1) && t.Op? && 1 <= o < t.order
    requires NarrateFrom(t, o + 1) == PostOrderOps(t)[o..]
    ensures NarrateFrom(t, o) == PostOrderOps(t)[o - 1..]
  {
    var ps := PostOrderOps(t);
    var found := [ps[o - 1]];
    assert NarrateFrom(t, o) == found + NarrateFrom(t, o + 1) by {
      SearchFinds(t, o);
      NumberedOneStep(t, o, found);
    }
    SliceFirst(ps, o - 1);
  }

  lemma SliceFirst<T>(s: seq<T>, i: int)
    requires 0 <= i < |s|
    ensures s[i..] == [s[i]] + s[i + 1..]
  {
  }

  /** The root's searches for an order below its own: the right subtree is
      asked first, and whichever one holds the operator finds it. */
  lemma {:induction false} SearchFinds(t: Node, o: int)
    requires Numbered(t, 1) && t.Op? && 1 <= o < t.order
    ensures var found := if Search(t.right, o) != [] then Search(t.right, o) else Search(t.left, o);
      found == [PostOrderOps(t)[o - 1]]
  {
    var l, r := t.left, t.right;
    var ps := PostOrderOps(t);
    var kl := OpCount(l);
    assert ps == PostOrderOps(l) + PostOrderOps(r) + [t];
    SearchNumbered(l, 1, o);
    SearchNumbered(r, 1 + kl, o);
    if o <= kl {
      assert ps[o - 1] == PostOrderOps(l)[o - 1];
    } else {
      assert ps[o - 1] == PostOrderOps(r)[o - 1 - kl];
    }
  }

  /** One step of the root's loop: when the operator with order `o` sits
      below the root, it is reported and the root moves on to `o + 1`. */
  lemma {:induction false} NumberedOneStep(t: Node, o: int, found: seq<Node>)
    requires t.Op? && t.order != o
    requires found != []
    requires found == if Search(t.right, o) != [] then Search(t.right, o) else Search(t.left, o)
    ensures NarrateFrom(t, o) == found + NarrateFrom(t, o + 1)
  {
  }

  /** After a successful evaluation the narration reports every operator
      exactly once, in evaluation order: the post-order, with orders 1..K. */
  lemma NarrationFollowsEvaluation(n: Node)
    requires Evaluate(n, 1).value.Some?
    ensures var t := Evaluate(n, 1).node;
      && Narrate(t) == PostOrderOps(t)
      && |Narrate(t)| == OpCount(n)
      && forall i :: 0 <= i < |Narrate(t)| ==> Narrate(t)[i].Op? && Narrate(t)[i].order == i + 1
  {
    var t := Evaluate(n, 1).node;
    EvaluateMeaning(n, 1);
    NumberedPostOrder(t, 1);
    NarrateFromNumbered(t, 1);
    ShapeOpCount(t, n);
  }

  /** After a successful evaluation every narrated operator, and every node
      below it, holds the value of its own subexpression: the values a
      sentence quotes are the ones the evaluation computed. */
  lemma NarratedValues(n: Node)
    requires Evaluate(n, 1).value.Some?
    ensures var t := Evaluate(n, 1).node;
      && ValuesStored(t)
      && forall i :: 0 <= i < |Narrate(t)| ==> ValuesStored(Narrate(t)[i])
  {
    var t := Evaluate(n, 1).node;
    EvaluateStores(n, 1);
    NarrationFollowsEvaluation(n);
    StoredPostOrder(t);
  }
}
