/**
 * Whole calls of `calculate`, followed from the expression text through the four checks,
 * the tokens and the tree to the result and the store. Each shape of the project's own
 * tests (src/test/java/taboola/ExpressionCalculatorTest.java and ExpressionValidatorTest.java)
 * is stated for every variable name and digit, with the tests' own values as instances at the
 * end; so are the right-associative chain `x = 9 - 2 - 3` and `x = 1 = 2`, which the
 * validator accepts but the builder cannot build.
 */
module Scenarios {
  import opened Results
  import opened ExpressionUtils
  import opened Operators
  import opened Tokenizer
  import opened Evaluator
  import opened ExpressionValidator
  import opened ExpressionBuilder
  import BuilderProperties
  import opened ExpressionCalculator

  // Helpers that keep the expression text apart from the token-level reasoning.

  lemma TokenizePlain(e: string, words: seq<string>)
    requires PlainWords(words) && e == Spaced(words)
    ensures Tokenize(e) == words
  {
    PadSpaced(words);
    ScanSpaced(words);
  }

  /** An assignment whose text and tokens pass the four checks. */
  lemma AcceptedWhen(e: string, ts: seq<string>)
    requires Tokenize(e) == ts
    requires HasValidCharacters(e) && !IsJavaWhitespace(e[0]) && !IsUnaryOperator(e)
    requires Balanced(ts) && WellStructured(ts)
    requires |ts| >= 2 && IsVariable(ts[0]) && (ts[1] == "=" || ts[1] == "+=")
    ensures Accepted(e)
  {
    AssignmentExpressionShape(e);
  }

  /** An accepted expression whose tree evaluates to `v` leaving the store `s'`:
      `calculate` returns `v` and leaves `s'`. */
  lemma CalculationWhen(e: string, tree: Node, s: Store, v: int, s': Store)
    requires Accepted(e) && Build(e) == Ok(tree) && Eval(tree, s) == Evaluation(Ok(v), s')
    ensures Calculation(e, s) == Outcome(Ok(v), s')
  {
  }

  /** An accepted expression whose tree fails with `err` leaving the store `s'`: `calculate`
      throws it, and the writes made before the failure stay. */
  lemma FailureWhen(e: string, tree: Node, s: Store, err: EvalError, s': Store)
    requires Accepted(e) && Build(e) == Ok(tree) && Eval(tree, s) == Evaluation(Err(err), s')
    ensures Calculation(e, s) == Outcome(Err(Failed(err)), s')
  {
  }

  /** A token that cannot stand where it stands: `calculate` throws `InvalidExpression` and
      the store is untouched. */
  lemma RejectedWhenOutOfPlace(e: string, ts: seq<string>, i: nat, s: Store)
    requires Tokenize(e) == ts && i < |ts| && !Fits(ts, i)
    ensures Calculation(e, s) == Outcome(Err(InvalidExpression), s)
  {
  }

  /** Both operands evaluate, the left one first: the node gives the operator applied to
      their values and leaves the store as the right one left it. */
  lemma EvalBoth(l: Node, op: Operator, r: Node, s: Store, a: int, s1: Store, b: int, s2: Store)
    requires Eval(l, s) == Evaluation(Ok(a), s1) && Eval(r, s1) == Evaluation(Ok(b), s2)
    ensures Eval(Binary(l, op, r), s) == Evaluation(Ok(Apply(op, a, b)), s2)
  {
  }

  /** The right side evaluates: its value is stored under the target and returned. */
  lemma EvalStored(x: char, e: Node, s: Store, v: int, s1: Store)
    requires Eval(e, s) == Evaluation(Ok(v), s1)
    ensures Eval(Assignment(x, e), s) == Evaluation(Ok(v), s1[x := v])
  {
  }

  // One step of the builder each, for any token sequence.

  /** A digit token is read as the literal of its value. */
  lemma AtomDigit(ts: seq<string>, i: nat, d: char)
    requires i < |ts| && ts[i] == [d] && IsDigit(d)
    ensures GetEvaluator(ts, i) == Ok(Parsed(Number(DigitValue(d)), i + 1))
  {
    assert IsNumber(ts[i]) && NumberValue(ts[i]) == DigitValue(d);
  }

  /** A lowercase letter token is read as a variable. */
  lemma AtomName(ts: seq<string>, i: nat, c: char)
    requires i < |ts| && ts[i] == [c] && IsLowercase(c)
    ensures GetEvaluator(ts, i) == Ok(Parsed(Variable(c), i + 1))
  {
    assert !IsNumber(ts[i]) by { assert !IsDigit(ts[i][0]); }
  }

  /** `x++` is read as a post-increment of `x`. */
  lemma AtomPostIncrement(ts: seq<string>, i: nat, x: char)
    requires i < |ts| && ts[i] == [x] + "++" && IsLowercase(x)
    ensures GetEvaluator(ts, i) == Ok(Parsed(PostIncrement(x), i + 1))
  {
    assert !IsNumber(ts[i]) by { assert !IsDigit(ts[i][0]); }
  }

  /** `++x` is read as the assignment of `1 + x` to `x`. */
  lemma AtomPreIncrement(ts: seq<string>, i: nat, x: char)
    requires i < |ts| && ts[i] == "++" + [x] && IsLowercase(x)
    ensures GetEvaluator(ts, i) == Ok(Parsed(Assignment(x, Binary(Number(1), Add, Variable(x))), i + 1))
  {
    assert !IsNumber(ts[i]) by { assert !IsDigit(ts[i][0]); }
    TokenClassesDisjoint(ts[i]);
  }

  /** `(` is read as the whole sub-expression after it. */
  lemma AtomGroup(ts: seq<string>, i: nat, p: Parsed)
    requires i < |ts| && ts[i] == "(" && BuildExpression(ts, i + 1) == Ok(p)
    ensures GetEvaluator(ts, i) == Ok(p)
  {
    TokenClassesDisjoint(ts[i]);
  }

  /** An atom with nothing after it is the whole expression. */
  lemma BuildLast(ts: seq<string>, i: nat, left: Node)
    requires i < |ts| && GetEvaluator(ts, i) == Ok(Parsed(left, |ts|))
    ensures BuildExpression(ts, i) == Ok(Parsed(left, |ts|))
  {
  }

  /** An atom followed by `)`: the `)` is read and dropped. */
  lemma BuildBeforeClose(ts: seq<string>, i: nat, left: Node)
    requires i + 1 < |ts| && GetEvaluator(ts, i) == Ok(Parsed(left, i + 1)) && ts[i + 1] == ")"
    ensures BuildExpression(ts, i) == Ok(Parsed(left, i + 2))
  {
    FromValueTable();
  }

  /** An atom followed by `+` or `-` takes the whole rest as its right operand. */
  lemma BuildSum(ts: seq<string>, i: nat, left: Node, op: Operator, right: Parsed)
    requires i + 1 < |ts| && GetEvaluator(ts, i) == Ok(Parsed(left, i + 1))
    requires (op == Add || op == Sub) && ts[i + 1] == Symbol(op)
    requires BuildExpression(ts, i + 2) == Ok(right)
    ensures BuildExpression(ts, i) == Ok(Parsed(Binary(left, op, right.node), right.next))
  {
    FromValueSymbol(op);
  }

  /** An atom, `*` and a last atom. */
  lemma BuildProduct(ts: seq<string>, i: nat, left: Parsed, right: Node)
    requires i < |ts| && GetEvaluator(ts, i) == Ok(left) && left.next + 1 < |ts|
    requires ts[left.next] == "*" && GetEvaluator(ts, left.next + 1) == Ok(Parsed(right, |ts|))
    ensures BuildExpression(ts, i) == Ok(Parsed(Binary(left.node, Multiple, right), |ts|))
  {
    FromValueSymbol(Multiple);
  }

  /** A name followed by `=` is assigned the rest. */
  lemma BuildAssign(ts: seq<string>, i: nat, x: char, right: Parsed)
    requires i + 2 <= |ts| && GetEvaluator(ts, i) == Ok(Parsed(Variable(x), i + 1)) && ts[i + 1] == "="
    requires BuildExpression(ts, i + 2) == Ok(right)
    ensures BuildExpression(ts, i) == Ok(Parsed(Assignment(x, right.node), right.next))
  {
    FromValueSymbol(Assign);
  }

  /** A name followed by `=` whose rest cannot be built: the rest's failure is the result. */
  lemma BuildAssignFails(ts: seq<string>, i: nat, x: char, error: BuildError)
    requires i + 2 <= |ts| && GetEvaluator(ts, i) == Ok(Parsed(Variable(x), i + 1)) && ts[i + 1] == "="
    requires BuildExpression(ts, i + 2) == Err(error)
    ensures BuildExpression(ts, i) == Err(error)
  {
    FromValueSymbol(Assign);
  }


  /** A name followed by `+=` is assigned its own value plus the rest. */
  lemma BuildAddAssign(ts: seq<string>, i: nat, x: char, right: Parsed)
    requires i + 2 <= |ts| && GetEvaluator(ts, i) == Ok(Parsed(Variable(x), i + 1)) && ts[i + 1] == "+="
    requires BuildExpression(ts, i + 2) == Ok(right)
    ensures BuildExpression(ts, i) == Ok(Parsed(Assignment(x, Binary(Variable(x), Add, right.node)), right.next))
  {
    FromValueSymbol(AddAssign);
  }

  /** An expression `x = …` whose right side builds: `x` is assigned it. */
  lemma BuildNamedAssign(ts: seq<string>, x: char, right: Parsed)
    requires 2 <= |ts| && ts[0] == [x] && IsLowercase(x) && ts[1] == "="
    requires BuildExpression(ts, 2) == Ok(right)
    ensures BuildExpression(ts, 0) == Ok(Parsed(Assignment(x, right.node), right.next))
  {
    AtomName(ts, 0, x);
    BuildAssign(ts, 0, x, right);
  }

  /** A number followed by `=`: the cast to a variable fails. */
  lemma BuildAssignToNumber(ts: seq<string>, i: nat, v: int)
    requires i + 1 < |ts| && GetEvaluator(ts, i) == Ok(Parsed(Number(v), i + 1)) && ts[i + 1] == "="
    ensures BuildExpression(ts, i) == Err(NotAVariable)
  {
    FromValueSymbol(Assign);
  }

  /** The value of a digit character, as `Integer.parseInt` reads it. */
  function DigitValue(d: char): int {
    d as int - '0' as int
  }

  // `x = 1`, `w = 1`, `a = 5`: a variable and a digit.

  lemma DigitText(ts: seq<string>, c: char, d: char)
    requires IsLowercase(c) && IsDigit(d)
    requires |ts| == 3 && ts[0] == [c] && ts[1] == "=" && ts[2] == [d]
    ensures Tokenize([c] + " = " + [d]) == ts
  {
    var e := [c] + " = " + [d];
    assert Spaced(ts[2..]) == [d];
    assert Spaced(ts[1..]) == "=" + " " + [d];
    assert Spaced(ts) == [c] + " " + ("=" + " " + [d]);
    assert e == Spaced(ts);
    TokenizePlain(e, ts);
  }

  lemma DigitStructure(c: char, d: char)
    requires IsLowercase(c) && IsDigit(d)
    ensures var ts := [[c], "=", [d]];
            Balanced(ts) && WellStructured(ts)
  {
    var ts := [[c], "=", [d]];
    TokenClassesDisjoint([c]);
    TokenClassesDisjoint("=");
    TokenClassesDisjoint([d]);
    forall i | 0 <= i < |ts|
      ensures Delta(ts[i]) == 0 && Fits(ts, i)
    {
    }
    OneGroupBalanced(ts, 3, 3);
  }

  lemma DigitTokens(ts: seq<string>, c: char, d: char)
    requires IsLowercase(c) && IsDigit(d)
    requires |ts| == 3 && ts[0] == [c] && ts[1] == "=" && ts[2] == [d]
    ensures BuildExpression(ts, 0) == Ok(Parsed(Assignment(c, Number(DigitValue(d))), 3))
  {
    AtomDigit(ts, 2, d);
    BuildLast(ts, 2, Number(DigitValue(d)));
    BuildNamedAssign(ts, c, Parsed(Number(DigitValue(d)), 3));
  }

  lemma DigitCharacters(c: char, d: char)
    requires IsLowercase(c) && IsDigit(d)
    ensures var e := [c] + " = " + [d];
            HasValidCharacters(e) && !IsJavaWhitespace(e[0]) && !IsUnaryOperator(e)
  {
    var e := [c] + " = " + [d];
    assert e[0] == c && e[2] == '=';
  }

  lemma DigitAccepted(c: char, d: char)
    requires IsLowercase(c) && IsDigit(d)
    ensures var e := [c] + " = " + [d];
            Accepted(e) && Build(e) == Ok(Assignment(c, Number(DigitValue(d))))
  {
    var e, ts := [c] + " = " + [d], [[c], "=", [d]];
    DigitText([[c], "=", [d]], c, d);
    DigitStructure(c, d);
    DigitTokens([[c], "=", [d]], c, d);
    DigitCharacters(c, d);
    AcceptedWhen(e, ts);
  }

  /** `c = d` for a lowercase `c` and a digit `d` gives the digit's value and binds `c` to it,
      whatever was bound before. */
  lemma CalculateAssignDigit(c: char, d: char, s: Store)
    requires IsLowercase(c) && IsDigit(d)
    ensures Calculation([c] + " = " + [d], s) == Outcome(Ok(DigitValue(d)), s[c := DigitValue(d)])
  {
    var e := [c] + " = " + [d];
    var v := DigitValue(d);
    assert Eval(Assignment(c, Number(v)), s) == Evaluation(Ok(v), s[c := v]);
    DigitAccepted(c, d);
    CalculationWhen(e, Assignment(c, Number(v)), s, v, s[c := v]);
  }

  // `y = 2 + 3`: a variable and the sum of two digits.

  /** `c = a + b` and `c = a = b`: a name, `=`, and two digits around a one-character operator. */
  lemma TwoOperandsText(ts: seq<string>, c: char, a: char, middle: string, b: char)
    requires IsLowercase(c) && IsDigit(a) && IsDigit(b) && (middle == " + " || middle == " = ")
    requires |ts| == 5 && ts[0] == [c] && ts[1] == "=" && ts[2] == [a] && ts[3] == [middle[1]]
    requires ts[4] == [b]
    ensures Tokenize([c] + " = " + [a] + middle + [b]) == ts
  {
    var e := [c] + " = " + [a] + middle + [b];
    assert middle == " " + ts[3] + " ";
    assert Spaced(ts[4..]) == [b];
    assert Spaced(ts[3..]) == ts[3] + " " + [b];
    assert Spaced(ts[2..]) == [a] + " " + (ts[3] + " " + [b]);
    assert Spaced(ts[1..]) == "=" + " " + ([a] + " " + (ts[3] + " " + [b]));
    assert Spaced(ts) == [c] + " " + ("=" + " " + ([a] + " " + (ts[3] + " " + [b])));
    assert e == Spaced(ts);
    TokenizePlain(e, ts);
  }

  lemma SumStructure(c: char, a: char, b: char)
    requires IsLowercase(c) && IsDigit(a) && IsDigit(b)
    ensures var ts := [[c], "=", [a], "+", [b]];
            Balanced(ts) && WellStructured(ts)
  {
    var ts := [[c], "=", [a], "+", [b]];
    TokenClassesDisjoint([c]);
    TokenClassesDisjoint("=");
    TokenClassesDisjoint([a]);
    TokenClassesDisjoint("+");
    TokenClassesDisjoint([b]);
    forall i | 0 <= i < |ts|
      ensures Delta(ts[i]) == 0 && Fits(ts, i)
    {
    }
    OneGroupBalanced(ts, 5, 5);
  }

  lemma SumTokens(ts: seq<string>, c: char, a: char, b: char)
    requires IsLowercase(c) && IsDigit(a) && IsDigit(b)
    requires |ts| == 5 && ts[0] == [c] && ts[1] == "=" && ts[2] == [a] && ts[3] == "+"
    requires ts[4] == [b]
    ensures BuildExpression(ts, 0) == Ok(Parsed(Assignment(c, Binary(Number(DigitValue(a)), Add, Number(DigitValue(b)))), 5))
  {
    AtomDigit(ts, 4, b);
    BuildLast(ts, 4, Number(DigitValue(b)));
    AtomDigit(ts, 2, a);
    BuildSum(ts, 2, Number(DigitValue(a)), Add, Parsed(Number(DigitValue(b)), 5));
    BuildNamedAssign(ts, c, Parsed(Binary(Number(DigitValue(a)), Add, Number(DigitValue(b))), 5));
  }

  lemma SumCharacters(c: char, a: char, b: char)
    requires IsLowercase(c) && IsDigit(a) && IsDigit(b)
    ensures var e := [c] + " = " + [a] + " + " + [b];
            HasValidCharacters(e) && !IsJavaWhitespace(e[0]) && !IsUnaryOperator(e)
  {
    var e := [c] + " = " + [a] + " + " + [b];
    assert e[0] == c && e[2] == '=' && e[4] == a && e[6] == '+' && e[8] == b;
  }

  lemma SumAccepted(c: char, a: char, b: char)
    requires IsLowercase(c) && IsDigit(a) && IsDigit(b)
    ensures var e := [c] + " = " + [a] + " + " + [b];
            Accepted(e) && Build(e) == Ok(Assignment(c, Binary(Number(DigitValue(a)), Add, Number(DigitValue(b)))))
  {
    var e, ts := [c] + " = " + [a] + " + " + [b], [[c], "=", [a], "+", [b]];
    TwoOperandsText([[c], "=", [a], "+", [b]], c, a, " + ", b);
    SumStructure(c, a, b);
    SumTokens([[c], "=", [a], "+", [b]], c, a, b);
    SumCharacters(c, a, b);
    AcceptedWhen(e, ts);
  }

  lemma SumEval(c: char, a: char, b: char, s: Store)
    requires IsDigit(a) && IsDigit(b)
    ensures var v := DigitValue(a) + DigitValue(b);
            Eval(Assignment(c, Binary(Number(DigitValue(a)), Add, Number(DigitValue(b)))), s) == Evaluation(Ok(v), s[c := v])
  {
    var va, vb := DigitValue(a), DigitValue(b);
    var sum := Binary(Number(va), Add, Number(vb));
    EvalBoth(Number(va), Add, Number(vb), s, va, s, vb, s);
    assert Apply(Add, va, vb) == va + vb;
    EvalStored(c, sum, s, va + vb, s);
  }

  /** `c = a + b` for digits `a`, `b` gives their sum and binds `c` to it, from any store;
      `y = 2 + 3` gives 5. */
  lemma CalculateSum(c: char, a: char, b: char, s: Store)
    requires IsLowercase(c) && IsDigit(a) && IsDigit(b)
    ensures Calculation([c] + " = " + [a] + " + " + [b], s)
            == Outcome(Ok(DigitValue(a) + DigitValue(b)), s[c := DigitValue(a) + DigitValue(b)])
  {
    var v := DigitValue(a) + DigitValue(b);
    var tree := Assignment(c, Binary(Number(DigitValue(a)), Add, Number(DigitValue(b))));
    SumEval(c, a, b, s);
    assert Eval(tree, s) == Evaluation(Ok(v), s[c := v]);
    SumAccepted(c, a, b);
    CalculationWhen([c] + " = " + [a] + " + " + [b], tree, s, v, s[c := v]);
  }

  // `z = (2 + 3) * 2`: a parenthesised sum times a digit.

  lemma GroupSpaced(c: char, a: char, b: char, d: char)
    ensures var before, inside, after := [[c], "="], [[a], "+", [b]], ["*", [d]];
            [c] + " = (" + [a] + " + " + [b] + ") * " + [d]
            == Spaced(before) + (" " + ("(" + (Spaced(inside) + (")" + (" " + Spaced(after))))))
  {
    var before, inside, after := [[c], "="], [[a], "+", [b]], ["*", [d]];
    assert Spaced(before[1..]) == "=" && Spaced(inside[2..]) == [b] && Spaced(after[1..]) == [d];
    assert Spaced(inside[1..]) == "+" + " " + [b];
    assert Spaced(before) == [c] + " " + "=";
    assert Spaced(inside) == [a] + " " + ("+" + " " + [b]);
    assert Spaced(after) == "*" + " " + [d];
  }

  lemma GroupText(ts: seq<string>, c: char, a: char, b: char, d: char)
    requires IsLowercase(c) && IsDigit(a) && IsDigit(b) && IsDigit(d)
    requires |ts| == 9 && ts[0] == [c] && ts[1] == "=" && ts[2] == "(" && ts[3] == [a]
    requires ts[4] == "+" && ts[5] == [b] && ts[6] == ")" && ts[7] == "*" && ts[8] == [d]
    ensures Tokenize([c] + " = (" + [a] + " + " + [b] + ") * " + [d]) == ts
  {
    var e := [c] + " = (" + [a] + " + " + [b] + ") * " + [d];
    var before, inside, after := [[c], "="], [[a], "+", [b]], ["*", [d]];
    GroupSpaced(c, a, b, d);
    assert PlainWords(before) && PlainWords(inside) && PlainWords(after);
    TokenizeGroup(e, before, inside, after);
    assert before + ["("] + inside + [")"] + after == ts;
  }


  lemma GroupStructure(ts: seq<string>, c: char, a: char, b: char, d: char)
    requires IsLowercase(c) && IsDigit(a) && IsDigit(b) && IsDigit(d)
    requires |ts| == 9 && ts[0] == [c] && ts[1] == "=" && ts[2] == "(" && ts[3] == [a]
    requires ts[4] == "+" && ts[5] == [b] && ts[6] == ")" && ts[7] == "*" && ts[8] == [d]
    ensures Balanced(ts) && WellStructured(ts)
  {
    TokenClassesDisjoint([c]);
    TokenClassesDisjoint("=");
    TokenClassesDisjoint("(");
    TokenClassesDisjoint([a]);
    TokenClassesDisjoint("+");
    TokenClassesDisjoint([b]);
    TokenClassesDisjoint(")");
    TokenClassesDisjoint("*");
    TokenClassesDisjoint([d]);
    forall i | 0 <= i < |ts|
      ensures Fits(ts, i) && (IsOpeningParenthesis(ts[i]) <==> i == 2) && (IsClosingParenthesis(ts[i]) <==> i == 6)
    {
    }
    OneGroupBalanced(ts, 2, 6);
  }


  lemma GroupTokens(ts: seq<string>, c: char, a: char, b: char, d: char)
    requires IsLowercase(c) && IsDigit(a) && IsDigit(b) && IsDigit(d)
    requires |ts| == 9 && ts[0] == [c] && ts[1] == "=" && ts[2] == "(" && ts[3] == [a]
    requires ts[4] == "+" && ts[5] == [b] && ts[6] == ")" && ts[7] == "*" && ts[8] == [d]
    ensures var sum := Binary(Number(DigitValue(a)), Add, Number(DigitValue(b)));
            BuildExpression(ts, 0) == Ok(Parsed(Assignment(c, Binary(sum, Multiple, Number(DigitValue(d)))), 9))
  {
    var sum := Binary(Number(DigitValue(a)), Add, Number(DigitValue(b)));
    GroupRight(ts, a, b, d);
    BuildNamedAssign(ts, c, Parsed(Binary(sum, Multiple, Number(DigitValue(d))), 9));
  }

  /** `(a + b) * d` is built as the product of the group and `d`. */
  lemma GroupRight(ts: seq<string>, a: char, b: char, d: char)
    requires IsDigit(a) && IsDigit(b) && IsDigit(d)
    requires |ts| == 9 && ts[2] == "(" && ts[3] == [a] && ts[4] == "+" && ts[5] == [b]
    requires ts[6] == ")" && ts[7] == "*" && ts[8] == [d]
    ensures var sum := Binary(Number(DigitValue(a)), Add, Number(DigitValue(b)));
            BuildExpression(ts, 2) == Ok(Parsed(Binary(sum, Multiple, Number(DigitValue(d))), 9))
  {
    var sum := Binary(Number(DigitValue(a)), Add, Number(DigitValue(b)));
    GroupInside(ts, a, b);
    AtomDigit(ts, 8, d);
    BuildProduct(ts, 2, Parsed(sum, 7), Number(DigitValue(d)));
  }

  /** The parenthesised sum is read as one atom ending after its `)`. */
  lemma GroupInside(ts: seq<string>, a: char, b: char)
    requires IsDigit(a) && IsDigit(b)
    requires 7 <= |ts| && ts[2] == "(" && ts[3] == [a] && ts[4] == "+" && ts[5] == [b] && ts[6] == ")"
    ensures GetEvaluator(ts, 2) == Ok(Parsed(Binary(Number(DigitValue(a)), Add, Number(DigitValue(b))), 7))
  {
    AtomDigit(ts, 5, b);
    BuildBeforeClose(ts, 5, Number(DigitValue(b)));
    AtomDigit(ts, 3, a);
    BuildSum(ts, 3, Number(DigitValue(a)), Add, Parsed(Number(DigitValue(b)), 7));
    AtomGroup(ts, 2, Parsed(Binary(Number(DigitValue(a)), Add, Number(DigitValue(b))), 7));
  }


  lemma GroupCharacters(c: char, a: char, b: char, d: char)
    requires IsLowercase(c) && IsDigit(a) && IsDigit(b) && IsDigit(d)
    ensures var e := [c] + " = (" + [a] + " + " + [b] + ") * " + [d];
            HasValidCharacters(e) && !IsJavaWhitespace(e[0]) && !IsUnaryOperator(e)
  {
    var e := [c] + " = (" + [a] + " + " + [b] + ") * " + [d];
    assert e[0] == c && e[2] == '=' && e[4] == '(' && e[5] == a && e[7] == '+' && e[9] == b;
    assert e[10] == ')' && e[12] == '*' && e[14] == d;
  }

  lemma GroupAccepted(c: char, a: char, b: char, d: char)
    requires IsLowercase(c) && IsDigit(a) && IsDigit(b) && IsDigit(d)
    ensures var e := [c] + " = (" + [a] + " + " + [b] + ") * " + [d];
            var sum := Binary(Number(DigitValue(a)), Add, Number(DigitValue(b)));
            Accepted(e) && Build(e) == Ok(Assignment(c, Binary(sum, Multiple, Number(DigitValue(d)))))
  {
    var e := [c] + " = (" + [a] + " + " + [b] + ") * " + [d];
    var ts := [[c], "=", "(", [a], "+", [b], ")", "*", [d]];
    GroupText(ts, c, a, b, d);
    GroupStructure(ts, c, a, b, d);
    GroupTokens(ts, c, a, b, d);
    GroupCharacters(c, a, b, d);
    AcceptedWhen(e, ts);
  }

  /** The product of a sum of two digits and a digit is an `int`. */
  lemma SmallProduct(p: int, q: int)
    requires 0 <= p <= 18 && 0 <= q <= 9
    ensures 0 <= p * q <= 162
  {
  }

  lemma GroupEval(c: char, a: char, b: char, d: char, s: Store)
    requires IsDigit(a) && IsDigit(b) && IsDigit(d)
    ensures var sum := Binary(Number(DigitValue(a)), Add, Number(DigitValue(b)));
            var v := (DigitValue(a) + DigitValue(b)) * DigitValue(d);
            Eval(Assignment(c, Binary(sum, Multiple, Number(DigitValue(d)))), s) == Evaluation(Ok(v), s[c := v])
  {
    var va, vb, vd := DigitValue(a), DigitValue(b), DigitValue(d);
    var v := (va + vb) * vd;
    var sum := Binary(Number(va), Add, Number(vb));
    EvalBoth(Number(va), Add, Number(vb), s, va, s, vb, s);
    assert Apply(Add, va, vb) == va + vb;
    EvalBoth(sum, Multiple, Number(vd), s, va + vb, s, vd, s);
    SmallProduct(va + vb, vd);
    assert Apply(Multiple, va + vb, vd) == v;
    EvalStored(c, Binary(sum, Multiple, Number(vd)), s, v, s);
  }

  /** The group is built and evaluated first: `c = (a + b) * d` gives `(a + b) * d` and binds
      `c` to it, from any store; `z = (2 + 3) * 2` gives 10. */
  lemma CalculateGroup(c: char, a: char, b: char, d: char, s: Store)
    requires IsLowercase(c) && IsDigit(a) && IsDigit(b) && IsDigit(d)
    ensures var v := (DigitValue(a) + DigitValue(b)) * DigitValue(d);
            Calculation([c] + " = (" + [a] + " + " + [b] + ") * " + [d], s) == Outcome(Ok(v), s[c := v])
  {
    var v := (DigitValue(a) + DigitValue(b)) * DigitValue(d);
    var sum := Binary(Number(DigitValue(a)), Add, Number(DigitValue(b)));
    var tree := Assignment(c, Binary(sum, Multiple, Number(DigitValue(d))));
    GroupEval(c, a, b, d, s);
    assert Eval(tree, s) == Evaluation(Ok(v), s[c := v]);
    GroupAccepted(c, a, b, d);
    CalculationWhen([c] + " = (" + [a] + " + " + [b] + ") * " + [d], tree, s, v, s[c := v]);
  }

  // `x = 9 - 2 - 3`: `-` takes the whole rest as its right operand.

  lemma ChainText(ts: seq<string>, c: char, a: char, b: char, d: char)
    requires IsLowercase(c) && IsDigit(a) && IsDigit(b) && IsDigit(d)
    requires |ts| == 7 && ts[0] == [c] && ts[1] == "=" && ts[2] == [a] && ts[3] == "-"
    requires ts[4] == [b] && ts[5] == "-" && ts[6] == [d]
    ensures Tokenize([c] + " = " + [a] + " - " + [b] + " - " + [d]) == ts
  {
    var e := [c] + " = " + [a] + " - " + [b] + " - " + [d];
    assert Spaced(ts[6..]) == [d];
    assert Spaced(ts[5..]) == "-" + " " + [d];
    assert Spaced(ts[4..]) == [b] + " " + ("-" + " " + [d]);
    assert Spaced(ts[3..]) == "-" + " " + ([b] + " " + ("-" + " " + [d]));
    assert Spaced(ts[2..]) == [a] + " " + ("-" + " " + ([b] + " " + ("-" + " " + [d])));
    assert Spaced(ts[1..]) == "=" + " " + ([a] + " " + ("-" + " " + ([b] + " " + ("-" + " " + [d]))));
    assert Spaced(ts) == [c] + " " + ("=" + " " + ([a] + " " + ("-" + " " + ([b] + " " + ("-" + " " + [d])))));
    assert e == Spaced(ts);
    TokenizePlain(e, ts);
  }

  lemma ChainStructure(c: char, a: char, b: char, d: char)
    requires IsLowercase(c) && IsDigit(a) && IsDigit(b) && IsDigit(d)
    ensures var ts := [[c], "=", [a], "-", [b], "-", [d]];
            Balanced(ts) && WellStructured(ts)
  {
    var ts := [[c], "=", [a], "-", [b], "-", [d]];
    TokenClassesDisjoint([c]);
    TokenClassesDisjoint("=");
    TokenClassesDisjoint([a]);
    TokenClassesDisjoint("-");
    TokenClassesDisjoint([b]);
    TokenClassesDisjoint([d]);
    forall i | 0 <= i < |ts|
      ensures Delta(ts[i]) == 0 && Fits(ts, i)
    {
    }
    OneGroupBalanced(ts, 7, 7);
  }

  lemma ChainTokens(ts: seq<string>, c: char, a: char, b: char, d: char)
    requires IsLowercase(c) && IsDigit(a) && IsDigit(b) && IsDigit(d)
    requires |ts| == 7 && ts[0] == [c] && ts[1] == "=" && ts[2] == [a] && ts[3] == "-"
    requires ts[4] == [b] && ts[5] == "-" && ts[6] == [d]
    ensures var rest := Binary(Number(DigitValue(b)), Sub, Number(DigitValue(d)));
            BuildExpression(ts, 0) == Ok(Parsed(Assignment(c, Binary(Number(DigitValue(a)), Sub, rest)), 7))
  {
    var rest := Binary(Number(DigitValue(b)), Sub, Number(DigitValue(d)));
    ChainRight(ts, a, b, d);
    BuildNamedAssign(ts, c, Parsed(Binary(Number(DigitValue(a)), Sub, rest), 7));
  }

  /** `a - b - d` is built as `a - (b - d)`. */
  lemma ChainRight(ts: seq<string>, a: char, b: char, d: char)
    requires IsDigit(a) && IsDigit(b) && IsDigit(d)
    requires |ts| == 7 && ts[2] == [a] && ts[3] == "-" && ts[4] == [b] && ts[5] == "-" && ts[6] == [d]
    ensures var rest := Binary(Number(DigitValue(b)), Sub, Number(DigitValue(d)));
            BuildExpression(ts, 2) == Ok(Parsed(Binary(Number(DigitValue(a)), Sub, rest), 7))
  {
    ChainRest(ts, b, d);
    AtomDigit(ts, 2, a);
    BuildSum(ts, 2, Number(DigitValue(a)), Sub, Parsed(Binary(Number(DigitValue(b)), Sub, Number(DigitValue(d))), 7));
  }

  /** The last `b - d` is built as one difference. */
  lemma ChainRest(ts: seq<string>, b: char, d: char)
    requires IsDigit(b) && IsDigit(d)
    requires |ts| == 7 && ts[4] == [b] && ts[5] == "-" && ts[6] == [d]
    ensures BuildExpression(ts, 4) == Ok(Parsed(Binary(Number(DigitValue(b)), Sub, Number(DigitValue(d))), 7))
  {
    AtomDigit(ts, 6, d);
    BuildLast(ts, 6, Number(DigitValue(d)));
    AtomDigit(ts, 4, b);
    BuildSum(ts, 4, Number(DigitValue(b)), Sub, Parsed(Number(DigitValue(d)), 7));
  }

  lemma ChainCharacters(c: char, a: char, b: char, d: char)
    requires IsLowercase(c) && IsDigit(a) && IsDigit(b) && IsDigit(d)
    ensures var e := [c] + " = " + [a] + " - " + [b] + " - " + [d];
            HasValidCharacters(e) && !IsJavaWhitespace(e[0]) && !IsUnaryOperator(e)
  {
    var e := [c] + " = " + [a] + " - " + [b] + " - " + [d];
    assert e[0] == c && e[2] == '=' && e[4] == a && e[6] == '-' && e[8] == b && e[10] == '-' && e[12] == d;
  }

  lemma ChainAccepted(c: char, a: char, b: char, d: char)
    requires IsLowercase(c) && IsDigit(a) && IsDigit(b) && IsDigit(d)
    ensures var e := [c] + " = " + [a] + " - " + [b] + " - " + [d];
            var rest := Binary(Number(DigitValue(b)), Sub, Number(DigitValue(d)));
            Accepted(e) && Build(e) == Ok(Assignment(c, Binary(Number(DigitValue(a)), Sub, rest)))
  {
    var e := [c] + " = " + [a] + " - " + [b] + " - " + [d];
    var ts := [[c], "=", [a], "-", [b], "-", [d]];
    ChainText([[c], "=", [a], "-", [b], "-", [d]], c, a, b, d);
    ChainStructure(c, a, b, d);
    ChainTokens([[c], "=", [a], "-", [b], "-", [d]], c, a, b, d);
    ChainCharacters(c, a, b, d);
    AcceptedWhen(e, ts);
  }

  lemma ChainEval(c: char, a: char, b: char, d: char, s: Store)
    requires IsDigit(a) && IsDigit(b) && IsDigit(d)
    ensures var rest := Binary(Number(DigitValue(b)), Sub, Number(DigitValue(d)));
            var v := DigitValue(a) - DigitValue(b) + DigitValue(d);
            Eval(Assignment(c, Binary(Number(DigitValue(a)), Sub, rest)), s) == Evaluation(Ok(v), s[c := v])
  {
    var va, vb, vd := DigitValue(a), DigitValue(b), DigitValue(d);
    var rest := Binary(Number(vb), Sub, Number(vd));
    EvalBoth(Number(vb), Sub, Number(vd), s, vb, s, vd, s);
    assert Apply(Sub, vb, vd) == vb - vd;
    EvalBoth(Number(va), Sub, rest, s, va, s, vb - vd, s);
    assert Apply(Sub, va, vb - vd) == va - vb + vd;
    EvalStored(c, Binary(Number(va), Sub, rest), s, va - vb + vd, s);
  }

  /** `c = a - b - d` is `a - (b - d)`, that is `a - b + d`, not `(a - b) - d`: it binds `c` to
      that value, from any store. */
  lemma CalculateChain(c: char, a: char, b: char, d: char, s: Store)
    requires IsLowercase(c) && IsDigit(a) && IsDigit(b) && IsDigit(d)
    ensures var v := DigitValue(a) - DigitValue(b) + DigitValue(d);
            Calculation([c] + " = " + [a] + " - " + [b] + " - " + [d], s) == Outcome(Ok(v), s[c := v])
  {
    var v := DigitValue(a) - DigitValue(b) + DigitValue(d);
    var rest := Binary(Number(DigitValue(b)), Sub, Number(DigitValue(d)));
    var tree := Assignment(c, Binary(Number(DigitValue(a)), Sub, rest));
    ChainEval(c, a, b, d, s);
    assert Eval(tree, s) == Evaluation(Ok(v), s[c := v]);
    ChainAccepted(c, a, b, d);
    CalculationWhen([c] + " = " + [a] + " - " + [b] + " - " + [d], tree, s, v, s[c := v]);
  }

  // `w = x++ + 1`: a post-increment inside an assignment.

  lemma PostIncrementText(ts: seq<string>, w: char, x: char, d: char)
    requires IsLowercase(w) && IsLowercase(x) && IsDigit(d)
    requires |ts| == 5 && ts[0] == [w] && ts[1] == "=" && ts[2] == [x] + "++" && ts[3] == "+"
    requires ts[4] == [d]
    ensures Tokenize([w] + " = " + [x] + "++ + " + [d]) == ts
  {
    var e := [w] + " = " + [x] + "++ + " + [d];
    assert Spaced(ts[4..]) == [d];
    assert Spaced(ts[3..]) == "+" + " " + [d];
    assert Spaced(ts[2..]) == [x] + "++" + " " + ("+" + " " + [d]);
    assert Spaced(ts[1..]) == "=" + " " + ([x] + "++" + " " + ("+" + " " + [d]));
    assert Spaced(ts) == [w] + " " + ("=" + " " + ([x] + "++" + " " + ("+" + " " + [d])));
    assert e == Spaced(ts);
    assert PlainWords(ts);
    TokenizePlain(e, ts);
  }

  lemma PostIncrementStructure(w: char, x: char, d: char)
    requires IsLowercase(w) && IsLowercase(x) && IsDigit(d)
    ensures var ts := [[w], "=", [x] + "++", "+", [d]];
            Balanced(ts) && WellStructured(ts)
  {
    var ts := [[w], "=", [x] + "++", "+", [d]];
    TokenClassesDisjoint([w]);
    TokenClassesDisjoint("=");
    TokenClassesDisjoint([x] + "++");
    TokenClassesDisjoint("+");
    TokenClassesDisjoint([d]);
    forall i | 0 <= i < |ts|
      ensures Delta(ts[i]) == 0 && Fits(ts, i)
    {
    }
    OneGroupBalanced(ts, 5, 5);
  }

  lemma PostIncrementTokens(ts: seq<string>, w: char, x: char, d: char)
    requires IsLowercase(w) && IsLowercase(x) && IsDigit(d)
    requires |ts| == 5 && ts[0] == [w] && ts[1] == "=" && ts[2] == [x] + "++" && ts[3] == "+"
    requires ts[4] == [d]
    ensures BuildExpression(ts, 0) == Ok(Parsed(Assignment(w, Binary(PostIncrement(x), Add, Number(DigitValue(d)))), 5))
  {
    AtomDigit(ts, 4, d);
    BuildLast(ts, 4, Number(DigitValue(d)));
    AtomPostIncrement(ts, 2, x);
    BuildSum(ts, 2, PostIncrement(x), Add, Parsed(Number(DigitValue(d)), 5));
    BuildNamedAssign(ts, w, Parsed(Binary(PostIncrement(x), Add, Number(DigitValue(d))), 5));
  }

  lemma PostIncrementCharacters(w: char, x: char, d: char)
    requires IsLowercase(w) && IsLowercase(x) && IsDigit(d)
    ensures var e := [w] + " = " + [x] + "++ + " + [d];
            HasValidCharacters(e) && !IsJavaWhitespace(e[0]) && !IsUnaryOperator(e)
  {
    var e := [w] + " = " + [x] + "++ + " + [d];
    assert e[0] == w && e[2] == '=' && e[4] == x && e[5] == '+' && e[6] == '+' && e[8] == '+' && e[10] == d;
  }

  lemma PostIncrementAccepted(w: char, x: char, d: char)
    requires IsLowercase(w) && IsLowercase(x) && IsDigit(d)
    ensures var e := [w] + " = " + [x] + "++ + " + [d];
            Accepted(e) && Build(e) == Ok(Assignment(w, Binary(PostIncrement(x), Add, Number(DigitValue(d)))))
  {
    var e := [w] + " = " + [x] + "++ + " + [d];
    PostIncrementText([[w], "=", [x] + "++", "+", [d]], w, x, d);
    PostIncrementStructure(w, x, d);
    PostIncrementTokens([[w], "=", [x] + "++", "+", [d]], w, x, d);
    PostIncrementCharacters(w, x, d);
    AcceptedWhen(e, [[w], "=", [x] + "++", "+", [d]]);
  }

  lemma PostIncrementEval(w: char, x: char, d: char, s: Store)
    requires IsDigit(d) && x in s
    ensures var v := Wrap(s[x] + DigitValue(d));
            Eval(Assignment(w, Binary(PostIncrement(x), Add, Number(DigitValue(d)))), s)
            == Evaluation(Ok(v), s[x := Wrap(s[x] + 1)][w := v])
  {
    var vd := DigitValue(d);
    var raised := s[x := Wrap(s[x] + 1)];
    EvalBoth(PostIncrement(x), Add, Number(vd), s, s[x], raised, vd, raised);
    EvalStored(w, Binary(PostIncrement(x), Add, Number(vd)), s, Wrap(s[x] + vd), raised);
  }

  /** `w = x++ + d` adds `d` to the value `x` held before and stores that in `w`, while `x`
      goes up by one (`w` is written last, so when `w` is `x` the sum wins); with `x` unbound it
      throws and changes nothing. */
  lemma CalculatePostIncrement(w: char, x: char, d: char, s: Store)
    requires IsLowercase(w) && IsLowercase(x) && IsDigit(d)
    ensures var o := Calculation([w] + " = " + [x] + "++ + " + [d], s);
            && (x in s ==> var v := Wrap(s[x] + DigitValue(d));
                           o == Outcome(Ok(v), s[x := Wrap(s[x] + 1)][w := v]))
            && (x !in s ==> o == Outcome(Err(Failed(UndefinedVariable(x))), s))
  {
    var e := [w] + " = " + [x] + "++ + " + [d];
    var sum := Binary(PostIncrement(x), Add, Number(DigitValue(d)));
    var tree := Assignment(w, sum);
    if x in s {
      var v := Wrap(s[x] + DigitValue(d));
      PostIncrementEval(w, x, d, s);
      assert Eval(tree, s) == Evaluation(Ok(v), s[x := Wrap(s[x] + 1)][w := v]);
      PostIncrementAccepted(w, x, d);
      CalculationWhen(e, tree, s, v, s[x := Wrap(s[x] + 1)][w := v]);
    } else {
      assert Eval(sum, s) == Evaluation(Err(UndefinedVariable(x)), s);
      assert Eval(tree, s) == Evaluation(Err(UndefinedVariable(x)), s);
      PostIncrementAccepted(w, x, d);
      FailureWhen(e, tree, s, UndefinedVariable(x), s);
    }
  }

  // `w += ++x + 1`: a compound assignment around a pre-increment.

  lemma PreIncrementText(ts: seq<string>, w: char, x: char, d: char)
    requires IsLowercase(w) && IsLowercase(x) && IsDigit(d)
    requires |ts| == 5 && ts[0] == [w] && ts[1] == "+=" && ts[2] == "++" + [x] && ts[3] == "+"
    requires ts[4] == [d]
    ensures Tokenize([w] + " += ++" + [x] + " + " + [d]) == ts
  {
    var e := [w] + " += ++" + [x] + " + " + [d];
    assert Spaced(ts[4..]) == [d];
    assert Spaced(ts[3..]) == "+" + " " + [d];
    assert Spaced(ts[2..]) == "++" + [x] + " " + ("+" + " " + [d]);
    assert Spaced(ts[1..]) == "+=" + " " + ("++" + [x] + " " + ("+" + " " + [d]));
    assert Spaced(ts) == [w] + " " + ("+=" + " " + ("++" + [x] + " " + ("+" + " " + [d])));
    assert e == Spaced(ts);
    assert PlainWords(ts);
    TokenizePlain(e, ts);
  }

  /** The tree of `w += ++x + d`: `w = w + ((x = 1 + x) + d)`. */
  function PreIncrementTree(w: char, x: char, d: char): Node {
    var increment := Assignment(x, Binary(Number(1), Add, Variable(x)));
    Assignment(w, Binary(Variable(w), Add, Binary(increment, Add, Number(DigitValue(d)))))
  }

  lemma PreIncrementStructure(w: char, x: char, d: char)
    requires IsLowercase(w) && IsLowercase(x) && IsDigit(d)
    ensures var ts := [[w], "+=", "++" + [x], "+", [d]];
            Balanced(ts) && WellStructured(ts)
  {
    var ts := [[w], "+=", "++" + [x], "+", [d]];
    TokenClassesDisjoint([w]);
    TokenClassesDisjoint("+=");
    TokenClassesDisjoint("++" + [x]);
    TokenClassesDisjoint("+");
    TokenClassesDisjoint([d]);
    forall i | 0 <= i < |ts|
      ensures Delta(ts[i]) == 0 && Fits(ts, i)
    {
    }
    OneGroupBalanced(ts, 5, 5);
  }

  lemma PreIncrementTokens(ts: seq<string>, w: char, x: char, d: char)
    requires IsLowercase(w) && IsLowercase(x) && IsDigit(d)
    requires |ts| == 5 && ts[0] == [w] && ts[1] == "+=" && ts[2] == "++" + [x] && ts[3] == "+"
    requires ts[4] == [d]
    ensures BuildExpression(ts, 0) == Ok(Parsed(PreIncrementTree(w, x, d), 5))
  {
    var increment := Assignment(x, Binary(Number(1), Add, Variable(x)));
    var right := Binary(increment, Add, Number(DigitValue(d)));
    AtomDigit(ts, 4, d);
    BuildLast(ts, 4, Number(DigitValue(d)));
    AtomPreIncrement(ts, 2, x);
    BuildSum(ts, 2, increment, Add, Parsed(Number(DigitValue(d)), 5));
    AtomName(ts, 0, w);
    BuildAddAssign(ts, 0, w, Parsed(right, 5));
  }

  lemma PreIncrementCharacters(w: char, x: char, d: char)
    requires IsLowercase(w) && IsLowercase(x) && IsDigit(d)
    ensures var e := [w] + " += ++" + [x] + " + " + [d];
            HasValidCharacters(e) && !IsJavaWhitespace(e[0]) && !IsUnaryOperator(e)
  {
    var e := [w] + " += ++" + [x] + " + " + [d];
    assert e[0] == w && e[2] == '+' && e[3] == '=' && e[5] == '+' && e[6] == '+' && e[7] == x;
    assert e[9] == '+' && e[11] == d;
  }

  lemma PreIncrementAccepted(w: char, x: char, d: char)
    requires IsLowercase(w) && IsLowercase(x) && IsDigit(d)
    ensures var e := [w] + " += ++" + [x] + " + " + [d];
            Accepted(e) && Build(e) == Ok(PreIncrementTree(w, x, d))
  {
    var e := [w] + " += ++" + [x] + " + " + [d];
    PreIncrementText([[w], "+=", "++" + [x], "+", [d]], w, x, d);
    PreIncrementStructure(w, x, d);
    PreIncrementTokens([[w], "+=", "++" + [x], "+", [d]], w, x, d);
    PreIncrementCharacters(w, x, d);
    AcceptedWhen(e, [[w], "+=", "++" + [x], "+", [d]]);
  }

  /** The evaluation of `w += ++x + d` with both names bound. */
  lemma PreIncrementEval(w: char, x: char, d: char, s: Store)
    requires IsDigit(d) && w in s && x in s
    ensures var raised := Wrap(1 + s[x]);
            var v := Wrap(s[w] + Wrap(raised + DigitValue(d)));
            Eval(PreIncrementTree(w, x, d), s) == Evaluation(Ok(v), s[x := raised][w := v])
  {
    var vd := DigitValue(d);
    var one := Binary(Number(1), Add, Variable(x));
    var increment := Assignment(x, one);
    var right := Binary(increment, Add, Number(vd));
    var raised := Wrap(1 + s[x]);
    var s1 := s[x := raised];
    EvalBoth(Number(1), Add, Variable(x), s, 1, s, s[x], s);
    EvalStored(x, one, s, raised, s);
    EvalBoth(increment, Add, Number(vd), s, raised, s1, vd, s1);
    EvalBoth(Variable(w), Add, right, s, s[w], s, Wrap(raised + vd), s1);
    EvalStored(w, Binary(Variable(w), Add, right), s, Wrap(s[w] + Wrap(raised + vd)), s1);
  }

  /** The evaluation of `w += ++x + d` with `w` or `x` unbound: the first unbound name read. */
  lemma PreIncrementEvalUndefined(w: char, x: char, d: char, s: Store)
    requires w !in s || x !in s
    ensures var missing := if w !in s then w else x;
            Eval(PreIncrementTree(w, x, d), s) == Evaluation(Err(UndefinedVariable(missing)), s)
  {
    var one := Binary(Number(1), Add, Variable(x));
    var increment := Assignment(x, one);
    var right := Binary(increment, Add, Number(DigitValue(d)));
    EvalBinary(Variable(w), Add, right, s);
    if w in s {
      EvalBinary(Number(1), Add, Variable(x), s);
      EvalBinary(increment, Add, Number(DigitValue(d)), s);
      assert Eval(right, s) == Evaluation(Err(UndefinedVariable(x)), s);
    }
  }

  /** `w += ++x + d` reads `w` first, then raises `x` by one, and stores `w + (x + d)` with
      the raised `x` in `w`; an unbound `w` or `x` throws and changes nothing. */
  lemma CalculatePreIncrement(w: char, x: char, d: char, s: Store)
    requires IsLowercase(w) && IsLowercase(x) && IsDigit(d)
    ensures var o := Calculation([w] + " += ++" + [x] + " + " + [d], s);
            && (w in s && x in s ==>
                  var raised := Wrap(1 + s[x]);
                  var v := Wrap(s[w] + Wrap(raised + DigitValue(d)));
                  o == Outcome(Ok(v), s[x := raised][w := v]))
            && (w !in s ==> o == Outcome(Err(Failed(UndefinedVariable(w))), s))
            && (w in s && x !in s ==> o == Outcome(Err(Failed(UndefinedVariable(x))), s))
  {
    var e := [w] + " += ++" + [x] + " + " + [d];
    if w in s && x in s {
      var raised := Wrap(1 + s[x]);
      var v := Wrap(s[w] + Wrap(raised + DigitValue(d)));
      PreIncrementEval(w, x, d, s);
      assert Eval(PreIncrementTree(w, x, d), s) == Evaluation(Ok(v), s[x := raised][w := v]);
      PreIncrementAccepted(w, x, d);
      CalculationWhen(e, PreIncrementTree(w, x, d), s, v, s[x := raised][w := v]);
    } else {
      PreIncrementEvalUndefined(w, x, d, s);
      assert Eval(PreIncrementTree(w, x, d), s) == Evaluation(Err(UndefinedVariable(if w !in s then w else x)), s);
      PreIncrementAccepted(w, x, d);
      FailureWhen(e, PreIncrementTree(w, x, d), s, UndefinedVariable(if w !in s then w else x), s);
    }
  }

  // `x = 1 = 2`: accepted, but the cast in front of the second `=` fails.

  lemma DoubleAssignStructure(c: char, a: char, b: char)
    requires IsLowercase(c) && IsDigit(a) && IsDigit(b)
    ensures var ts := [[c], "=", [a], "=", [b]];
            Balanced(ts) && WellStructured(ts)
  {
    var ts := [[c], "=", [a], "=", [b]];
    TokenClassesDisjoint([c]);
    TokenClassesDisjoint("=");
    TokenClassesDisjoint([a]);
    TokenClassesDisjoint([b]);
    forall i | 0 <= i < |ts|
      ensures Delta(ts[i]) == 0 && Fits(ts, i)
    {
    }
    OneGroupBalanced(ts, 5, 5);
  }

  lemma DoubleAssignTokens(ts: seq<string>, c: char, a: char, b: char)
    requires IsLowercase(c) && IsDigit(a) && IsDigit(b)
    requires |ts| == 5 && ts[0] == [c] && ts[1] == "=" && ts[2] == [a] && ts[3] == "="
    requires ts[4] == [b]
    ensures BuildExpression(ts, 0) == Err(NotAVariable)
  {
    AtomDigit(ts, 2, a);
    BuildAssignToNumber(ts, 2, DigitValue(a));
    AtomName(ts, 0, c);
    BuildAssignFails(ts, 0, c, NotAVariable);
  }

  lemma DoubleAssignCharacters(c: char, a: char, b: char)
    requires IsLowercase(c) && IsDigit(a) && IsDigit(b)
    ensures var e := [c] + " = " + [a] + " = " + [b];
            HasValidCharacters(e) && !IsJavaWhitespace(e[0]) && !IsUnaryOperator(e)
  {
    var e := [c] + " = " + [a] + " = " + [b];
    assert e[0] == c && e[2] == '=' && e[4] == a && e[6] == '=' && e[8] == b;
  }

  /** `c = a = b` passes all four checks, but building it fails on the cast of the number `a`
      to a variable; nothing is evaluated and the store is unchanged. */
  lemma CalculateDoubleAssign(c: char, a: char, b: char, s: Store)
    requires IsLowercase(c) && IsDigit(a) && IsDigit(b)
    ensures var e := [c] + " = " + [a] + " = " + [b];
            Accepted(e) && Calculation(e, s) == Outcome(Err(NotBuilt(NotAVariable)), s)
  {
    var e, ts := [c] + " = " + [a] + " = " + [b], [[c], "=", [a], "=", [b]];
    TwoOperandsText([[c], "=", [a], "=", [b]], c, a, " = ", b);
    DoubleAssignStructure(c, a, b);
    DoubleAssignTokens([[c], "=", [a], "=", [b]], c, a, b);
    DoubleAssignCharacters(c, a, b);
    AcceptedWhen(e, ts);
  }

  // `x++` and `++x` on their own.

  lemma LoneIncrementAccepted(e: string)
    requires IsUnaryOperator(e)
    ensures Accepted(e) && Tokenize(e) == [e]
  {
    BuilderProperties.TokenizeIncrement(e);
    TokenClassesDisjoint(e);
    OneGroupBalanced([e], 1, 1);
  }

  /** A lone `c++` returns the value held and raises it by one; with `c` unbound it throws
      and changes nothing. */
  lemma CalculateLonePostIncrement(c: char, s: Store)
    requires IsLowercase(c)
    ensures var o := Calculation([c] + "++", s);
            && (c in s ==> o == Outcome(Ok(s[c]), s[c := Wrap(s[c] + 1)]))
            && (c !in s ==> o == Outcome(Err(Failed(UndefinedVariable(c))), s))
  {
    var e := [c] + "++";
    LoneIncrementAccepted(e);
    assert BuildExpression([e], 0) == Ok(Parsed(PostIncrement(c), 1));
  }

  /** A lone `++c` raises the value by one and returns the raised value; with `c` unbound it
      throws and changes nothing. */
  lemma CalculateLonePreIncrement(c: char, s: Store)
    requires IsLowercase(c)
    ensures var o := Calculation("++" + [c], s);
            && (c in s ==> o == Outcome(Ok(Wrap(1 + s[c])), s[c := Wrap(1 + s[c])]))
            && (c !in s ==> o == Outcome(Err(Failed(UndefinedVariable(c))), s))
  {
    var e := "++" + [c];
    var one := Binary(Number(1), Add, Variable(c));
    var tree := Assignment(c, one);
    if c in s {
      var raised := Wrap(1 + s[c]);
      EvalBoth(Number(1), Add, Variable(c), s, 1, s, s[c], s);
      EvalStored(c, one, s, raised, s);
      assert Eval(tree, s) == Evaluation(Ok(raised), s[c := raised]);
      LoneIncrementAccepted(e);
      TokenClassesDisjoint(e);
      assert BuildExpression([e], 0) == Ok(Parsed(tree, 1));
      CalculationWhen(e, tree, s, raised, s[c := raised]);
    } else {
      assert Eval(one, s) == Evaluation(Err(UndefinedVariable(c)), s);
      assert Eval(tree, s) == Evaluation(Err(UndefinedVariable(c)), s);
      LoneIncrementAccepted(e);
      TokenClassesDisjoint(e);
      assert BuildExpression([e], 0) == Ok(Parsed(tree, 1));
      FailureWhen(e, tree, s, UndefinedVariable(c), s);
    }
  }

  // Rejected expressions.

  /** `c = + d`: an operator where an operand is expected. */
  lemma RejectOperatorAfterAssign(c: char, d: char, s: Store)
    requires IsLowercase(c) && IsDigit(d)
    ensures Calculation([c] + " = + " + [d], s) == Outcome(Err(InvalidExpression), s)
  {
    var e, ts := [c] + " = + " + [d], [[c], "=", "+", [d]];
    assert Spaced(ts[3..]) == [d];
    assert Spaced(ts[2..]) == "+" + " " + [d];
    assert Spaced(ts[1..]) == "=" + " " + ("+" + " " + [d]);
    assert Spaced(ts) == [c] + " " + ("=" + " " + ("+" + " " + [d]));
    assert e == Spaced(ts);
    TokenizePlain(e, ts);
    TokenClassesDisjoint("=");
    TokenClassesDisjoint("+");
    RejectedWhenOutOfPlace(e, ts, 2, s);
  }

  /** `c = a b`: two operands in a row. */
  lemma RejectOperandAfterOperand(c: char, a: char, b: char, s: Store)
    requires IsLowercase(c) && IsDigit(a) && IsDigit(b)
    ensures Calculation([c] + " = " + [a] + " " + [b], s) == Outcome(Err(InvalidExpression), s)
  {
    var e, ts := [c] + " = " + [a] + " " + [b], [[c], "=", [a], [b]];
    assert Spaced(ts[3..]) == [b];
    assert Spaced(ts[2..]) == [a] + " " + [b];
    assert Spaced(ts[1..]) == "=" + " " + ([a] + " " + [b]);
    assert Spaced(ts) == [c] + " " + ("=" + " " + ([a] + " " + [b]));
    assert e == Spaced(ts);
    TokenizePlain(e, ts);
    TokenClassesDisjoint([a]);
    TokenClassesDisjoint([b]);
    RejectedWhenOutOfPlace(e, ts, 3, s);
  }

  /** `c -= d`: `-=` is not an operator of the calculator. */
  lemma RejectSubtractAssign(c: char, d: char, s: Store)
    requires IsLowercase(c) && IsDigit(d)
    ensures Calculation([c] + " -= " + [d], s) == Outcome(Err(InvalidExpression), s)
  {
    var e, ts := [c] + " -= " + [d], [[c], "-=", [d]];
    assert Spaced(ts[2..]) == [d];
    assert Spaced(ts[1..]) == "-=" + " " + [d];
    assert Spaced(ts) == [c] + " " + ("-=" + " " + [d]);
    assert e == Spaced(ts);
    TokenizePlain(e, ts);
    TokenClassesDisjoint("-=");
    RejectedWhenOutOfPlace(e, ts, 1, s);
  }

  /** A lone parenthesis is one token. */
  lemma LoneParenthesis(e: string)
    requires e == "(" || e == ")"
    ensures Tokenize(e) == [e]
  {
    var padded := " " + e + " ";
    assert Pad(e) == padded;
    assert Scan(" ") == [];
    assert Word(e + " ") == e;
    assert (e + " ")[1..] == " ";
    assert Scan(e + " ") == [e] + Scan(" ");
    assert padded[1..] == e + " ";
    assert Scan(padded) == Scan(e + " ");
  }

  /** `)` closes more than it opens, `(` leaves a parenthesis open. */
  lemma RejectLoneParenthesis(e: string, s: Store)
    requires e == "(" || e == ")"
    ensures Calculation(e, s) == Outcome(Err(InvalidExpression), s)
  {
    LoneParenthesis(e);
    assert [e][..1] == [e] && [e][..0] == [];
    assert Depth([e]) != 0;
  }

  // The source's own test cases, each an instance of the lemmas above. The names are any
  // lowercase letters and each digit is the digit character of the test's value.

  /** `x = 1` on a new calculator gives 1 and leaves `{x=1}`; `a = 5` gives 5 and leaves `{a=5}`. */
  lemma CalculatorTestAssign(x: char, one: char, a: char, five: char)
    requires IsLowercase(x) && IsLowercase(a)
    requires IsDigit(one) && DigitValue(one) == 1 && IsDigit(five) && DigitValue(five) == 5
    ensures Calculation([x] + " = " + [one], map[]) == Outcome(Ok(1), map[x := 1])
    ensures Calculation([a] + " = " + [five], map[]) == Outcome(Ok(5), map[a := 5])
  {
    CalculateAssignDigit(x, one, map[]);
    CalculateAssignDigit(a, five, map[]);
  }

  /** `y = 2 + 3` on a new calculator gives 5 and leaves `{y=5}`. */
  lemma CalculatorTestSum(y: char, two: char, three: char)
    requires IsLowercase(y) && IsDigit(two) && DigitValue(two) == 2 && IsDigit(three) && DigitValue(three) == 3
    ensures Calculation([y] + " = " + [two] + " + " + [three], map[]) == Outcome(Ok(5), map[y := 5])
  {
    CalculateSum(y, two, three, map[]);
  }

  /** `z = (2 + 3) * 2` on a new calculator gives 10 and leaves `{z=10}`. */
  lemma CalculatorTestGroup(z: char, two: char, three: char)
    requires IsLowercase(z) && IsDigit(two) && DigitValue(two) == 2 && IsDigit(three) && DigitValue(three) == 3
    ensures Calculation([z] + " = (" + [two] + " + " + [three] + ") * " + [two], map[])
            == Outcome(Ok(10), map[z := 10])
  {
    CalculateGroup(z, two, three, two, map[]);
  }

  /** `x = 1` then `w = x++ + 1` on a new calculator give 1 and 2 and leave `{x=2, w=2}`. */
  lemma CalculatorTestPostIncrement(x: char, w: char, one: char)
    requires IsLowercase(x) && IsLowercase(w) && x != w && IsDigit(one) && DigitValue(one) == 1
    ensures var first := Calculation([x] + " = " + [one], map[]);
            var second := Calculation([w] + " = " + [x] + "++ + " + [one], first.store);
            first.result == Ok(1) && second == Outcome(Ok(2), map[x := 2, w := 2])
  {
    var s1 := map[x := 1];
    assert s1[x] + DigitValue(one) == 2 && Wrap(2) == 2;
    assert s1[x := 2][w := 2] == map[x := 2, w := 2];
    CalculateAssignDigit(x, one, map[]);
    CalculatePostIncrement(w, x, one, s1);
  }

  /** `x = 1`, `w = 1`, then `w += ++x + 1` on a new calculator give 1, 1 and 4 and leave
      `{x=2, w=4}`. */
  lemma CalculatorTestPreIncrement(x: char, w: char, one: char)
    requires IsLowercase(x) && IsLowercase(w) && x != w && IsDigit(one) && DigitValue(one) == 1
    ensures var first := Calculation([x] + " = " + [one], map[]);
            var second := Calculation([w] + " = " + [one], first.store);
            var third := Calculation([w] + " += ++" + [x] + " + " + [one], second.store);
            first.result == Ok(1) && second.result == Ok(1) && third == Outcome(Ok(4), map[x := 2, w := 4])
  {
    var s1, s2 := map[x := 1], map[x := 1, w := 1];
    assert map[][x := DigitValue(one)] == s1 && s1[w := DigitValue(one)] == s2;
    var raised := Wrap(1 + s2[x]);
    assert raised == 2 by { assert 1 + s2[x] == 2; }
    assert Wrap(raised + DigitValue(one)) == 3 by { assert raised + DigitValue(one) == 3; }
    assert Wrap(s2[w] + Wrap(raised + DigitValue(one))) == 4 by { assert s2[w] + 3 == 4; }
    assert s2[x := raised][w := 4] == map[x := 2, w := 4];
    CalculateAssignDigit(x, one, map[]);
    CalculateAssignDigit(w, one, s1);
    CalculatePreIncrement(w, x, one, s2);
  }

  /** `x = + 1`, `x = 5 + $`, `)` and `(` throw `InvalidExpression`. */
  lemma CalculatorTestInvalid(e1: string, e2: string, s: Store)
    requires e1 == "x = + 1" && e2 == "x = 5 + $"
    ensures Calculation(e1, s) == Outcome(Err(InvalidExpression), s)
    ensures Calculation(e2, s) == Outcome(Err(InvalidExpression), s)
    ensures Calculation(")", s) == Outcome(Err(InvalidExpression), s)
    ensures Calculation("(", s) == Outcome(Err(InvalidExpression), s)
  {
    RejectOperatorAfterAssign('x', '1', s);
    assert e1 == ['x'] + " = + " + ['1'];
    assert e2[8] == '$' && !IsAllowedCharacter(e2[8]);
    RejectLoneParenthesis(")", s);
    RejectLoneParenthesis("(", s);
  }
}
