/** The `ExprTree` façade: owns the root, runs the builders against a shared
    cursor, picks one from the first character, evaluates and deletes. */
module Facade {
  import opened Options
  import opened Text
  import opened Cursor
  import opened Tree
  import opened Builders
  import Evaluation

  /** The lines `fillFromExpression` itself prints; `Attempted` means a
      builder ran to its end (its own messages are folded into its outcome). */
  datatype Report = EmptyInput | UnexpectedCharacter(c: char) | UnexpectedInput | Attempted

  function ReportOf(input: seq<char>): (r: Report)
    ensures r == EmptyInput <==> input == []
    ensures r.UnexpectedCharacter? <==> Detect(input).Unknown?
    ensures Detect(input).Unknown? ==> r == UnexpectedCharacter(input[0])
    ensures r == UnexpectedInput <==> Dispatch(input) == Some(Raised)
  {
    match Detect(input)
    case NoInput => EmptyInput
    case Unknown(c) => UnexpectedCharacter(c)
    case _ => if Dispatch(input) == Some(Raised) then UnexpectedInput else Attempted
  }

  /** The root after `fillFromExpression`: a built tree or `None` replaces it,
      but an exception skips the assignment and leaves it as it was. */
  function Stored(d: Option<Outcome>, previous: Option<Node>): (r: Option<Node>)
    ensures d == None || d == Some(Raised) ==> r == previous
    ensures d == Some(Rejected) ==> r == None
    ensures d.Some? && d.value.Got? ==> r == Some(d.value.node)
  {
    match d
    case Some(Got(n)) => Some(n)
    case Some(Rejected) => None
    case _ => previous
  }

  class ExprTree {
    var root: Option<Node>

    constructor ()
      ensures root == None
    {
      root := None;
    }

    method BuildFromPrefix(p: Parser) returns (res: Outcome)
      modifies p
      ensures (res, Tokens(p.input)) == PrefixBuild(Tokens(old(p.input)))
      decreases |Tokens(p.input)|
    {
      ghost var ts := Tokens(p.input);
      var c := p.GetNext();
      if c.Some? && IsOperator(c.value) {
        assert ts[0] == c.value && ts[1..] == Tokens(p.input);
        var left := BuildFromPrefix(p);
        if left.Raised? {
          return Raised;
        }
        var right := BuildFromPrefix(p);
        if right.Raised? {
          return Raised;
        }
        if left.Got? && right.Got? {
          res := Got(Op(c.value, left.node, right.node, 0.0, 0));
        } else {
          res := Rejected;
        }
      } else if c.None? {
        res := Raised;
      } else if IsDigit(c.value) {
        assert ts[0] == c.value && ts[1..] == Tokens(p.input);
        res := Got(Leaf(DigitValue(c.value)));
      } else {
        assert ts[0] == c.value && ts[1..] == Tokens(p.input);
        res := Rejected;
      }
    }

    method BuildFromPostfix(p: Parser) returns (res: Outcome)
      modifies p
      ensures (res, Tokens(p.input)) == PostfixBuild(Tokens(old(p.input)))
    {
      var stack: seq<Node> := [];
      var c := p.GetNext();
      while c.Some?
        invariant c.None? ==> Tokens(p.input) == []
        invariant PostfixRun(Pending(c, p.input), stack) == PostfixBuild(Tokens(old(p.input)))
        decreases |Pending(c, p.input)|
      {
        ghost var ts := Pending(c, p.input);
        assert ts == [c.value] + Tokens(p.input);
        if IsDigit(c.value) {
          PostfixDigitStep(c.value, Tokens(p.input), stack);
          stack := stack + [Leaf(DigitValue(c.value))];
        } else if IsOperator(c.value) {
          if stack == [] {
            PostfixOperatorStep(c.value, Tokens(p.input), stack);
            return Raised;
          }
          var right := stack[|stack| - 1];
          if |stack| == 1 {
            PostfixOperatorStep(c.value, Tokens(p.input), stack);
            return Raised;
          }
          var left := stack[|stack| - 2];
          PostfixOperatorStep(c.value, Tokens(p.input), stack);
          stack := stack[..|stack| - 2] + [Op(c.value, left, right, 0.0, 0)];
        } else {
          assert ts[0] == c.value && ts[1..] == Tokens(p.input);
          return Rejected;
        }
        c := p.GetNext();
      }
      if stack == [] {
        return Raised;
      }
      res := Got(stack[|stack| - 1]);
    }

    method BuildFromInfix(p: Parser) returns (res: Outcome)
      modifies p
      ensures (res, Tokens(p.input)) == InfixBuild(Tokens(old(p.input)))
      decreases |Tokens(p.input)|
    {
      var stack: seq<Node> := [];
      var c := p.GetNext();
      while c.Some?
        invariant c.None? ==> Tokens(p.input) == []
        invariant |Pending(c, p.input)| <= |Tokens(old(p.input))|
        invariant InfixRun(Pending(c, p.input), stack) == InfixBuild(Tokens(old(p.input)))
        decreases |Pending(c, p.input)|
      {
        ghost var ts := Pending(c, p.input);
        assert ts[0] == c.value && ts[1..] == Tokens(p.input);
        if c.value == '(' {
          var sub := BuildFromInfix(p);
          if sub.Got? {
            stack := stack + [sub.node];
          } else {
            return sub;
          }
        } else if IsDigit(c.value) {
          stack := stack + [Leaf(DigitValue(c.value))];
        } else if IsOperator(c.value) {
          if stack == [] {
            return Raised;
          }
          var left := stack[|stack| - 1];
          stack := stack[..|stack| - 1];
          var right := BuildFromInfix(p);
          if right.Got? {
            return Got(Op(c.value, left, right.node, 0.0, 0));
          }
          return right;
        } else if c.value == ')' {
          if stack == [] {
            return Raised;
          }
          return Got(stack[|stack| - 1]);
        } else {
          return Rejected;
        }
        c := p.GetNext();
      }
      if stack == [] {
        return Raised;
      }
      res := Got(stack[|stack| - 1]);
    }

    /** `fillFromExpression`: peeks at the first character of the cursor's
        text and runs the matching builder on it. */
    method Fill(p: Parser) returns (report: Report)
      modifies this, p
      ensures report == ReportOf(old(p.input))
      ensures root == Stored(Dispatch(old(p.input)), old(root))
      ensures Dispatch(old(p.input)) == None ==> p.input == old(p.input)
    {
      if |p.input| == 0 {
        return EmptyInput;
      }
      var c := p.input[0];
      var res: Outcome;
      if IsOperator(c) {
        res := BuildFromPrefix(p);
      } else if IsDigit(c) {
        res := BuildFromPostfix(p);
      } else if c == '(' {
        res := BuildFromInfix(p);
      } else {
        return UnexpectedCharacter(c);
      }
      if res.Raised? {
        report := UnexpectedInput;
      } else {
        root := if res.Got? then Some(res.node) else None;
        report := Attempted;
      }
    }

    /** `ExprTree.evaluate`: evaluates from order 1, which stamps the tree;
        a missing or falsy value (None or 0) deletes the tree. */
    method Evaluate() returns (value: Option<real>, errors: seq<Evaluation.EvalError>)
      modifies this
      ensures old(root) == None ==> value == None && errors == [] && root == None
      ensures old(root).Some? ==>
        var e := Evaluation.Evaluate(old(root).value, 1);
        && errors == e.errors
        && (if e.value.Some? && e.value.value != 0.0
            then value == e.value && root == Some(e.node)
            else value == None && root == None)
    {
      value, errors := None, [];
      if root.Some? {
        var e := Evaluation.Evaluate(root.value, 1);
        root := Some(e.node);
        errors := e.errors;
        if e.value.Some? && e.value.value != 0.0 {
          value := e.value;
        } else {
          Delete();
        }
      }
    }

    method Delete()
      modifies this
      ensures root == None
    {
      root := None;
    }
  }

  /** The first lines of the program: a cursor over the line read, an empty
      tree, and `fillFromExpression`. */
  method Load(text: string) returns (tree: ExprTree, report: Report)
    ensures fresh(tree)
    ensures report == ReportOf(Strip(text))
    ensures tree.root == Stored(Dispatch(Strip(text)), None)
  {
    var p := new Parser(text);
    tree := new ExprTree();
    report := tree.Fill(p);
  }
}
