# Expression trees: building, rendering, evaluating and narrating

This project models the core of `ExpressionTree.py`, a small program that
does the following:

- reads one line holding an arithmetic expression over single digits and the
  operators `+ * - / %`;
- detects whether the line is written in prefix, postfix or fully
  parenthesised infix notation;
- builds a binary expression tree from it;
- prints the tree in all three notations;
- evaluates it, stamping every operator node with its value and its
  evaluation order;
- narrates the operations in that order.

The model is organised as follows:

- `Text` holds the character classes (`str.isspace`, digits, operators).
  It also models `str.strip`, and `Tokens`, the non-blank characters of a
  text.
- `Cursor.Parser` is `ExprParser`, a class whose `input` field is the
  unconsumed text. `GetNext` strips it and hands out its first character.
- `Tree.Node` is the tree, as a datatype. A `Leaf` holds a literal. An `Op`
  holds a symbol, two children, the stored value and the evaluation order.
  The three renderers are functions on it.
- `Builders` gives the three builders as functions over the tokens the
  cursor hands out:
  - `PrefixBuild` is `buildFromPrefixExpression`.
  - `PostfixRun` is the loop of `buildFromPostfixExpression`.
  - `InfixRun` is one call of `buildFromInfixExpression`.

  A builder call ends in one of three `Outcome`s:
  - `Got`: a tree was built.
  - `Rejected`: the source's `None` return.
  - `Raised`: a Python exception (`pop` on an empty list, or `None.isdigit()`
    at the end of the input).

  `Detect` and `Dispatch` are the choice `fillFromExpression` makes from the
  first character.
- `Facade.ExprTree` is the `ExprTree` class:
  - Its `root` field is updated in place.
  - Its builder methods run the cursor step by step (recursion and `while`
    loops, as in the source). Each is proved equal to its builder function.
  - `Fill` is `fillFromExpression`. `Evaluate` and `Delete` are the façade's
    `evaluate` and `delete`.
- `Evaluation.Evaluate` is `Node.evaluate`. It returns the stamped tree, the
  value, the counter handed back and the error lines it printed. It is
  related to these reference definitions:
  - `Denote`, the mathematical value;
  - `WithinLimit`, the ten-operator ceiling as the code checks it;
  - `Numbered`, the post-order numbering.
- `Narration` is `Node.narrate`. It computes which operator nodes are
  narrated, in what order.
- `RoundTrip` proves two things. First, every rendering, read back through
  detection and a builder, gives the same tree. An operation goes to the
  builder of its own notation. A single digit, in any notation, goes to the
  postfix builder, which reads it as the same leaf. Second, whatever the
  prefix builder accepts is a rendering.
- `Scenarios` works through sample lines from text to value: `5 1 2 + 4 * +`,
  `/ 4 0`, `(3 + (4 * 2))` and `5`. For the lines that evaluate to a value,
  it also gives the narration: `5 1 2 + 4 * +`, `(3 + (4 * 2))` and `5`.

The model follows the code as written. That includes the following
behaviours, which neither the header comments (lines 4-10) nor the prompt
(line 294, "limit to 10 operators") announce:

- **Operator ceiling.** The "more than ten operators" test runs on entry to
  every node, with the counter that node receives. A right-leaning chain
  enters every node with the same counter, so it passes the test however
  long it is. `Evaluation.ElevenOperators` shows `1 + (1 + (… + 1))` with
  eleven operators evaluating to 12, while the left-leaning chain of the
  same length is refused.
- **Failure does not short-circuit.** When the left operand fails, the
  right operand is still evaluated, starting from counter 0. Its error
  lines are printed too.
- **Order before the zero check.** An operator's order is stamped before the
  zero-divisor check. A failed division therefore still carries its order.
- **Zero deletes the tree.** `ExprTree.evaluate` treats a value of 0 like a
  failure and deletes the tree.
- **An exception keeps the old root.** When a builder raises,
  `fillFromExpression` skips the assignment, so the previous root stays.
- **Trailing input.** The prefix builder ignores tokens after one complete
  expression. The postfix builder returns the top of its stack and drops
  what lies below (`RoundTrip.PostfixKeepsLast`).

## Model

| member | source | states |
|---|---|---|
| `Text.IsSpace` | ExpressionTree.py:19 | whitespace, as `strip()` removes it, is never a digit, an operator or a parenthesis |
| `Text.Strip` | ExpressionTree.py:15 | `strip()` never lengthens the text, and a non-empty result neither starts nor ends with whitespace |
| `Text.Tokens` | ExpressionTree.py:18-25 | the characters a whitespace-skipping reader is handed: never longer than the text, and never blank |
| `Text.DigitValue` | ExpressionTree.py:166-167 | `int(c)` of a digit is in 0..9, and `str` of it gives the same character back |
| `Text.StripStart` | ExpressionTree.py:15 | stripping the front leaves a suffix that does not start with whitespace |
| `Text.StripEnd` | ExpressionTree.py:15 | stripping the back leaves a prefix that does not end with whitespace |
| `Text.TokensStrip` | ExpressionTree.py:15 | `strip()` never changes the non-blank characters a whitespace-skipping reader sees |
| `Text.StripFront` | ExpressionTree.py:19-21 | a stripped text is empty exactly when the text has no non-blank character; otherwise its first character is the first non-blank one |
| `Cursor.Parser.constructor` | ExpressionTree.py:14-15 | the cursor holds the stripped line, with the same non-blank characters |
| `Cursor.Parser.GetNext` | ExpressionTree.py:18-25 | strips the rest and hands out its first character, which is never blank, and keeps the remainder; `None` exactly when only whitespace was left; the character handed out followed by what is left are the non-blank characters held before |
| `Tree.PrefixString` | ExpressionTree.py:36-42 | a prefix rendering is never empty, starts with the operator for an operation, and is the digit itself for a single-digit leaf |
| `Tree.PostfixString` | ExpressionTree.py:45-51 | a postfix rendering ends with a space, with the operator just before it for an operation, and is the digit and a space for a single-digit leaf |
| `Tree.InfixString` | ExpressionTree.py:54-60 | an infix rendering of an operation is enclosed in parentheses; a single-digit leaf renders as the digit itself |
| `Tree.PrefixStringTokens` | ExpressionTree.py:36-42 | the non-blank characters of a prefix rendering are the operator followed by both operands' tokens, one character per node |
| `Tree.PostfixStringTokens` | ExpressionTree.py:45-51 | the non-blank characters of a postfix rendering are both operands' tokens followed by the operator |
| `Tree.InfixStringTokens` | ExpressionTree.py:54-60 | the non-blank characters of an infix rendering are `(`, left operand, operator, right operand, `)` |
| `Builders.PrefixBuild` | ExpressionTree.py:156-170 | an empty input raises (`None.isdigit()`); otherwise each call consumes at least one token; a built tree is well formed and unstamped |
| `Builders.PostfixRun` | ExpressionTree.py:173-188 | the loop never reads past its input; from a stack of built trees it returns a well-formed, unstamped tree |
| `Builders.PostfixBuild` | ExpressionTree.py:173-188 | from an empty stack: empty input, or an operator first, raises; the rest never reads past the input; a built tree is well formed and unstamped |
| `Builders.PostfixDigitStep` | ExpressionTree.py:177-178 | a digit pushes its leaf and the loop goes on |
| `Builders.PostfixOperatorStep` | ExpressionTree.py:179-183 | an operator raises with fewer than two operands; otherwise it replaces the top two with the operation, the top one on the right |
| `Builders.InfixRun` | ExpressionTree.py:191-217 | a call never reads past its input; from a stack of built trees it returns a well-formed, unstamped tree |
| `Builders.InfixBuild` | ExpressionTree.py:191-217 | from an empty stack: empty input, or an operator or `)` first, raises; the rest never reads past the input; a built tree is well formed and unstamped |
| `Builders.Detect` | ExpressionTree.py:221-241 | the builder is chosen from the first character: empty input, operator → prefix, digit → postfix, `(` → infix, each in both directions |
| `Builders.Dispatch` | ExpressionTree.py:220-241 | a builder runs exactly when the first character selects one, and what it builds is well formed and unstamped |
| `RoundTrip.PrefixTokensParse` | ExpressionTree.py:156-170 | the prefix builder reads one rendered tree back as that tree and leaves whatever follows unread |
| `RoundTrip.PrefixOperatorStep` | ExpressionTree.py:158-163 | an operator whose two operand calls both build gives the operation |
| `RoundTrip.PrefixOperatorGot` | ExpressionTree.py:158-165 | an operator call builds a tree only when both operand calls do |
| `RoundTrip.PrefixOperationTokens` | ExpressionTree.py:36-39 | an operator followed by the tokens of two operands is the prefix rendering of their operation |
| `RoundTrip.PrefixParseTokens` | ExpressionTree.py:156-170 | whatever the prefix builder accepts is the prefix rendering of the tree it returns, followed by the unread tokens |
| `RoundTrip.PostfixTokensParse` | ExpressionTree.py:173-188 | reading a rendered tree in postfix pushes exactly that tree on the stack |
| `RoundTrip.PostfixKeepsLast` | ExpressionTree.py:188 | two postfix renderings in a row give the second tree; the first is dropped without error |
| `RoundTrip.InfixOperandParse` | ExpressionTree.py:211-212 | a rendered operand followed by `)` is read by one call, which returns at the `)` |
| `RoundTrip.InfixOperandPush` | ExpressionTree.py:195-202 | a rendered operand at the start of a call is read and pushed |
| `RoundTrip.InfixDigitStep` | ExpressionTree.py:201-202 | a digit pushes its leaf and the call goes on |
| `RoundTrip.InfixOpenStep` | ExpressionTree.py:195-198 | `(` runs a nested call and pushes the tree it returns |
| `RoundTrip.InfixOperatorParse` | ExpressionTree.py:203-208 | an operator pops its left operand and returns the operation with a nested call's tree as right operand |
| `RoundTrip.InfixInnerParse` | ExpressionTree.py:191-217 | what follows the `(` of a rendered operation, up to its `)`, is read as that operation |
| `RoundTrip.InfixTokensParse` | ExpressionTree.py:191-217 | the infix builder reads a whole infix rendering back as its tree |
| `RoundTrip.PostfixStartsWithDigit` | ExpressionTree.py:45-51 | a postfix rendering starts with a digit, so the detector picks the postfix builder |
| `RoundTrip.FirstOfStripped` | ExpressionTree.py:221-224 | the detector sees the first non-blank character of the line, and the builder sees its non-blank characters |
| `RoundTrip.LeafParse` | ExpressionTree.py:173-188 | a lone digit read in postfix is its leaf |
| `RoundTrip.LeafFills` | ExpressionTree.py:230-232 | a line whose only non-blank character is a digit goes to the postfix builder and gives that leaf |
| `RoundTrip.PrefixOperationFills` | ExpressionTree.py:225-227 | a line starting with an operator whose tokens render a tree rebuilds that tree |
| `RoundTrip.PrefixStringFills` | ExpressionTree.py:220-241 | the prefix rendering of any tree, read back, rebuilds that tree |
| `RoundTrip.PostfixStringFills` | ExpressionTree.py:230-234 | the postfix rendering of any tree, read back, rebuilds that tree |
| `RoundTrip.InfixInputFills` | ExpressionTree.py:235-239 | a line whose tokens are an infix rendering rebuilds that tree |
| `RoundTrip.InfixStringFills` | ExpressionTree.py:220-241 | the infix rendering of any tree, read back, rebuilds that tree |
| `Evaluation.FlooredMod` | ExpressionTree.py:91 | Python's `%`: the remainder lies between 0 and the divisor, takes the divisor's sign, and differs from the dividend by a whole multiple of the divisor |
| `Evaluation.FloorRemainder` | ExpressionTree.py:91 | taking floor(a / b) copies of b away from a leaves a remainder between 0 and b |
| `Evaluation.Apply` | ExpressionTree.py:74-91 | the value an operator stores: sum; product; difference, where adding back the right operand gives the left; quotient, where multiplying back gives the dividend; floored remainder, which lies between 0 and the divisor, takes its sign and differs from the dividend by a whole multiple of it; any other symbol leaves the stored value untouched |
| `Evaluation.Evaluate` | ExpressionTree.py:63-94 | evaluation keeps the tree's structure; it fails exactly when an error line was printed, and then hands back counter 0 |
| `Evaluation.EvaluateMeaning` | ExpressionTree.py:63-94 | the value is the mathematical value exactly when every node is entered with a counter of at most ten, and none otherwise; on success the counter advances by the number of operators and they are numbered in post-order |
| `Evaluation.EvaluateStores` | ExpressionTree.py:72-92 | a successful evaluation leaves in every operator node the value of the expression below it, and returns the root's value |
| `Evaluation.ErrorsFromCeiling` | ExpressionTree.py:64-66 | an expression with no zero divisor can fail only on the ceiling: every error line is then "too many operators" |
| `Evaluation.StoredPostOrder` | ExpressionTree.py:72-92 | in a tree whose values are stored, every operator along the post-order holds its subexpression's value |
| `Evaluation.NumberedPostOrder` | ExpressionTree.py:67-72 | a numbered tree's operators, in post-order, carry the orders k, k+1, …: a permutation of that range, increasing along the post-order |
| `Evaluation.NumberedParentLast` | ExpressionTree.py:67-72 | both children finish before their parent: an operator's order exceeds every order below it |
| `Evaluation.EvaluateIdempotent` | ExpressionTree.py:63-94 | evaluating the stamped tree again repeats the evaluation exactly: same value, counter, messages and stamps |
| `Evaluation.FewOperatorsFit` | ExpressionTree.py:64-66 | a tree with at most ten operators never hits the ceiling when evaluated from 1 |
| `Evaluation.LeftChainLimit` | ExpressionTree.py:64-69 | a left-leaning chain of m operators fits exactly when k + m ≤ 11 |
| `Evaluation.RightChainLimit` | ExpressionTree.py:64-69 | a right-leaning chain fits for every length, as long as the starting counter is at most ten |
| `Evaluation.LeftChainValue` | ExpressionTree.py:74-75 | the chain `((1 + 1) + …) + 1` of m additions is worth m + 1 |
| `Evaluation.RightChainValue` | ExpressionTree.py:74-75 | the chain `1 + (… + (1 + 1))` of m additions is worth m + 1 |
| `Evaluation.ElevenOperators` | ExpressionTree.py:64-66 | eleven operators: the left-leaning chain is refused with "too many operators" lines only, the right-leaning one evaluates to 12 |
| `Narration.Search` | ExpressionTree.py:124-135 | a non-root call reports only operators carrying the order sought, and finds something only when that order is at most the largest one in the subtree |
| `Narration.NarrateFrom` | ExpressionTree.py:124-137 | the root's loop from order o reports only operators, with orders between o and the largest in the tree |
| `Narration.Narrate` | ExpressionTree.py:106-138 | the narration reports only operators, never a leaf, with orders from 1 to the largest in the tree |
| `Narration.SearchNumbered` | ExpressionTree.py:124-135 | in a tree numbered in post-order, a search for order o finds exactly the one operator carrying it, or nothing |
| `Narration.SearchFinds` | ExpressionTree.py:130-135 | for an order below the root's, the right-then-left search finds the operator at that post-order position |
| `Narration.NumberedOneStep` | ExpressionTree.py:131-137 | when the root's order is not o and a subtree reports something, the root reports it and moves on to o + 1 |
| `Narration.NarrateStep` | ExpressionTree.py:130-137 | for an order o below the root's: if narrating from o + 1 gives the post-order operators from position o + 1 on, narrating from o puts the operator of order o in front of them |
| `Narration.NarrateFromNumbered` | ExpressionTree.py:124-137 | in a tree numbered from 1, narrating from o reports the post-order operators from position o on, that is orders o, o+1, …, K, ending with the root; past K it reports nothing |
| `Narration.NarrationFollowsEvaluation` | ExpressionTree.py:106-138 | after a successful evaluation the narration reports every operator exactly once, in evaluation order, with orders 1..K |
| `Narration.NarratedValues` | ExpressionTree.py:124-129 | after a successful evaluation, every narrated operator and every node below it holds its subexpression's value, so the sentences quote the computed values |
| `Facade.ReportOf` | ExpressionTree.py:220-241 | the line `fillFromExpression` prints: "Empty input" exactly when the line is empty; "Unexpected character: c" exactly when its first character selects no builder, naming that character; "Unexpected input" exactly when the selected builder raised |
| `Facade.Stored` | ExpressionTree.py:226-239 | a built tree or `None` replaces the root; an exception, or no builder, leaves it as it was |
| `Facade.ExprTree.constructor` | ExpressionTree.py:152-153 | a new tree has no root |
| `Facade.ExprTree.BuildFromPrefix` | ExpressionTree.py:156-170 | the recursive builder on the cursor returns what `PrefixBuild` gives on the pending tokens, and leaves exactly its unread tokens |
| `Facade.ExprTree.BuildFromPostfix` | ExpressionTree.py:173-188 | the stack loop on the cursor returns what `PostfixBuild` gives on the pending tokens, and leaves exactly its unread tokens |
| `Facade.ExprTree.BuildFromInfix` | ExpressionTree.py:191-217 | the recursive stack builder on the cursor returns what `InfixBuild` gives on the pending tokens, and leaves exactly its unread tokens |
| `Facade.ExprTree.Fill` | ExpressionTree.py:220-241 | reports as `ReportOf` and stores as `Stored` the outcome of the builder detected from the line; without a builder the cursor is untouched |
| `Facade.ExprTree.Evaluate` | ExpressionTree.py:262-270 | evaluates from order 1 and keeps the stamped tree when the value is non-zero; otherwise (no value or value 0) the tree is deleted; the error lines are the evaluator's |
| `Facade.ExprTree.Delete` | ExpressionTree.py:273-276 | the tree no longer has a root |
| `Facade.Load` | ExpressionTree.py:294-296 | a fresh tree filled from the stripped line holds what detection and building give |
| `Scenarios.SumRendering` | ExpressionTree.py:45-51 | `5 + ((1 + 2) * 4)` renders in postfix as `5 1 2 + 4 * + ` |
| `Scenarios.PostfixSumText` | ExpressionTree.py:173-188 | the postfix line `5 1 2 + 4 * +` builds `5 + ((1 + 2) * 4)` |
| `Scenarios.SumSeventeen` | ExpressionTree.py:63-94 | `5 + ((1 + 2) * 4)` is worth 17, with orders 1, 2, 3 from the innermost operation outwards |
| `Scenarios.QuotientRendering` | ExpressionTree.py:36-42 | `4 / 0` renders in prefix as `/ 4 0` |
| `Scenarios.SumNarration` | ExpressionTree.py:106-138 | the evaluated `5 + ((1 + 2) * 4)` narrates `1 + 2` first, then the product, then the sum |
| `Scenarios.PrefixQuotientText` | ExpressionTree.py:156-170 | the prefix line `/ 4 0` builds `4 / 0` |
| `Scenarios.QuotientByZero` | ExpressionTree.py:80-83 | `4 / 0` fails with the one division-by-zero line, no value, counter 0, and order 1 stamped |
| `Scenarios.NestedRendering` | ExpressionTree.py:54-60 | `3 + (4 * 2)` renders in infix as `(3 + (4 * 2))` |
| `Scenarios.InfixNestedText` | ExpressionTree.py:191-217 | the infix line `(3 + (4 * 2))` builds `3 + (4 * 2)` |
| `Scenarios.NestedEleven` | ExpressionTree.py:63-94 | `3 + (4 * 2)` is worth 11: the product is first, the sum second |
| `Scenarios.NestedNarration` | ExpressionTree.py:106-138 | the evaluated `3 + (4 * 2)` narrates the product first, then the sum |
| `Scenarios.InnerOperationNarratedFirst` | ExpressionTree.py:106-138 | for `a s (b t c)`, once evaluated, the narration tells the inner operation first (order 1) and the outer one second (order 2) |
| `Scenarios.SingleLeaf` | ExpressionTree.py:173-188 | the line `5` builds one leaf, worth 5, with nothing to narrate |

## Left out

- `printTree` (`Node`, lines 141-148, and `ExprTree`, lines 286-291) only draws the tree. It is not modelled.
- `ExprTree.toPrefixString`, `toPostfixString` and `toInfixString` (lines 244-259) are not modelled. They call the node renderers and add a newline.
- `ExprTree.narrate` (lines 279-283) is not modelled. It evaluates, then calls `Node.narrate` on the root. A failed or zero-valued evaluation has already deleted the root by then, so the call fails on `None`.
- `Node.delete` (lines 97-103) detaches every child before the root is dropped. Trees are values here, so no node is shared and the teardown has no observable effect. `Facade.ExprTree.Delete` only clears the root.
- Narration: the English wording is not modelled: ordinal words, operand descriptions, and values rounded to two places. `Narration` models which nodes are reported and in what order.
- Narration beyond ten: past the tenth operator, the ordinal-word lookup would fail. This is reachable through a long right-leaning chain, and is not modelled.
- Floating point: values are exact reals. Python's float rounding and the text form of floats in the narration are not modelled.
- Digits: only the ASCII digits `0`-`9` count as digits. Other Unicode characters that `str.isdigit` accepts are not modelled.
- Builder messages: the "Unexpected character" line a builder prints is folded into its `Rejected` outcome. `Facade.Report` models only the lines `fillFromExpression` prints itself.
- Evaluation messages are the `EvalError` values, not their text.
- The driver (lines 294-304): reading the line from the terminal and printing each result are left out. `Facade.Load` takes the line as a parameter and models lines 294-296.
- Recursion depth: CPython stops recursion at about a thousand nested calls, and this limit is not modelled. Past it, a prefix or infix line nested that deep raises `RecursionError` in its builder. The bare `except:` at lines 228 and 238 catches this and reports "Unexpected input", keeping the old root. A tree that deep also makes the renderers, `evaluate` and `narrate` fail, uncaught. That includes right-leaning chains, which pass the ten-operator ceiling. The model's recursion is unbounded, so it builds, renders and evaluates such inputs in full.
- In-place stamping: `Node.evaluate` writes into shared node objects; `Evaluation.Evaluate` returns the stamped tree instead. With no sharing in the tree, the two agree.
