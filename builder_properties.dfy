/**
 * What the validator guarantees the builder: on an accepted expression the builder never
 * runs out of tokens and never meets a token it cannot turn into an atom, every `)` it
 * drops is the one closing the group being built, it reads every token, and the tree at
 * the top is an assignment or a post-increment. The one failure left is the cast in front
 * of `=`/`+=`, which `x = 1 = 2` reaches, and `Integer.parseInt` on a number above the
 * largest `int`.
 */
module BuilderProperties {
  import opened Results
  import opened ExpressionUtils
  import opened Operators
  import opened Tokenizer
  import opened Evaluator
  import opened ExpressionValidator
  import opened ExpressionBuilder

  /** Where an atom is expected: at the start, or after an operator or `(`. */
  predicate AtomPosition(ts: seq<string>, i: nat) {
    i < |ts| && (i == 0 || !IsValueEnd(ts[i - 1]))
  }

  /** Where an operator, a `)` or the end is expected: after an operand or `)`. */
  predicate OperatorPosition(ts: seq<string>, j: nat) {
    0 < j <= |ts| && IsValueEnd(ts[j - 1])
  }

  /** A build that started at `start` stopped at `stop` either at the end of the tokens with
      every parenthesis it opened closed again, or right after the `)` closing the group it
      was built in. */
  predicate EndsGroup(ts: seq<string>, start: nat, stop: nat)
    requires start <= stop <= |ts|
  {
    || (stop == |ts| && Depth(ts[..stop]) == Depth(ts[..start]))
    || (0 < stop && IsClosingParenthesis(ts[stop - 1]) && Depth(ts[..stop]) == Depth(ts[..start]) - 1)
  }

  /** The builder succeeded, or failed in one of the two ways the validator does not rule out:
      a number too large for `int`, or a non-variable in front of `=`/`+=`. */
  predicate Reached(r: Result<Parsed, BuildError>) {
    r.Err? ==> r.error.NotAVariable? || r.error.NumberOutOfRange?
  }

  /** An operator in a well-structured sequence is never its last token, and names its constant. */
  lemma OperatorFollowed(ts: seq<string>, j: nat)
    requires WellStructured(ts) && j < |ts| && IsOperator(ts[j])
    ensures AtomPosition(ts, j + 1)
    ensures Delta(ts[j]) == 0
    ensures FromValue(ts[j]) != Unknown && Symbol(FromValue(ts[j])) == ts[j]
  {
    TokenClassesDisjoint(ts[j]);
    FromValueKnownIffOperator(ts[j]);
  }

  lemma {:induction false} GetEvaluatorAccepted(ts: seq<string>, i: nat)
    requires WellStructured(ts) && Balanced(ts) && AtomPosition(ts, i)
    ensures Reached(GetEvaluator(ts, i))
    ensures GetEvaluator(ts, i).Ok? ==>
              var p := GetEvaluator(ts, i).value;
              OperatorPosition(ts, p.next) && Depth(ts[..p.next]) == Depth(ts[..i])
    decreases |ts| - i, 0
  {
    var token := ts[i];
    assert Fits(ts, i);
    TokenClassesDisjoint(token);
    DepthStep(ts, i);
    if IsOpeningParenthesis(token) {
      BuildExpressionAccepted(ts, i + 1);
      var r := BuildExpression(ts, i + 1);
      if r.Ok? {
        assert ts[..|ts|] == ts;
        assert Depth(ts[..i]) >= 0;
      }
    }
  }

  lemma {:induction false} BuildExpressionAccepted(ts: seq<string>, i: nat)
    requires WellStructured(ts) && Balanced(ts) && AtomPosition(ts, i)
    ensures Reached(BuildExpression(ts, i))
    ensures BuildExpression(ts, i).Ok? ==>
              var p := BuildExpression(ts, i).value;
              OperatorPosition(ts, p.next) && EndsGroup(ts, i, p.next)
    decreases |ts| - i, 1
  {
    GetEvaluatorAccepted(ts, i);
    var left := GetEvaluator(ts, i);
    if left.Err? {
      assert BuildExpression(ts, i) == Err(left.error);
    } else {
      ParseOperationAccepted(ts, left.value.node, left.value.next);
      assert BuildExpression(ts, i) == ParseOperation(ts, left.value.node, left.value.next);
    }
  }

  lemma {:induction false} ParseOperationAccepted(ts: seq<string>, left: Node, j: nat)
    requires WellStructured(ts) && Balanced(ts) && OperatorPosition(ts, j) && WellFormed(left)
    ensures Reached(ParseOperation(ts, left, j))
    ensures ParseOperation(ts, left, j).Ok? ==>
              var p := ParseOperation(ts, left, j).value;
              OperatorPosition(ts, p.next) && EndsGroup(ts, j, p.next)
    decreases |ts| - j, 3
  {
    if j < |ts| {
      var token := ts[j];
      assert Fits(ts, j);
      TokenClassesDisjoint(token);
      if IsOperator(token) {
        OperatorFollowed(ts, j);
        if FromValue(token) == Multiple {
          MultiplyAccepted(ts, left, j);
        } else {
          RestAccepted(ts, left, j);
        }
      } else {
        FromValueKnownIffOperator(token);
        DepthStep(ts, j);
      }
    }
  }

  /** `+`, `-`, `=` and `+=` take the whole rest of the group as their right operand. */
  lemma {:induction false} RestAccepted(ts: seq<string>, left: Node, j: nat)
    requires WellStructured(ts) && Balanced(ts) && OperatorPosition(ts, j) && WellFormed(left)
    requires j < |ts| && FromValue(ts[j]) in {Add, Sub, Assign, AddAssign}
    ensures Reached(ParseOperation(ts, left, j))
    ensures ParseOperation(ts, left, j).Ok? ==>
              var p := ParseOperation(ts, left, j).value;
              OperatorPosition(ts, p.next) && EndsGroup(ts, j, p.next)
    decreases |ts| - j, 2
  {
    OperatorFollowed(ts, j);
    DepthStep(ts, j);
    BuildExpressionAccepted(ts, j + 1);
    ParseRest(ts, left, j);
    var r := ParseOperation(ts, left, j);
    if r.Ok? {
      EndsGroupFrom(ts, j, j + 1, r.value.next);
    }
  }

  /** Tokens that leave the depth as it was can be read before a build without changing
      where that build ends its group. */
  lemma EndsGroupFrom(ts: seq<string>, j: nat, k: nat, stop: nat)
    requires j <= k <= stop <= |ts| && Depth(ts[..k]) == Depth(ts[..j]) && EndsGroup(ts, k, stop)
    ensures EndsGroup(ts, j, stop)
  {
  }

  /** What `+`, `-`, `=` and `+=` give: the right operand's stopping point, its failure, or
      the failed cast of the left operand. */
  lemma ParseRest(ts: seq<string>, left: Node, j: nat)
    requires j < |ts| && WellFormed(left) && FromValue(ts[j]) in {Add, Sub, Assign, AddAssign}
    ensures var r, right := ParseOperation(ts, left, j), BuildExpression(ts, j + 1);
            && (r.Ok? ==> right.Ok? && r.value.next == right.value.next)
            && (r.Err? ==> r.error == NotAVariable || (right.Err? && r.error == right.error))
  {
  }

  /** `*` takes one atom and goes on while tokens are left. */
  lemma {:induction false} MultiplyAccepted(ts: seq<string>, left: Node, j: nat)
    requires WellStructured(ts) && Balanced(ts) && OperatorPosition(ts, j) && WellFormed(left)
    requires j < |ts| && FromValue(ts[j]) == Multiple
    ensures Reached(ParseOperation(ts, left, j))
    ensures ParseOperation(ts, left, j).Ok? ==>
              var p := ParseOperation(ts, left, j).value;
              OperatorPosition(ts, p.next) && EndsGroup(ts, j, p.next)
    decreases |ts| - j, 2
  {
    OperatorFollowed(ts, j);
    DepthStep(ts, j);
    GetEvaluatorAccepted(ts, j + 1);
    ParseProduct(ts, left, j);
    var right := GetEvaluator(ts, j + 1);
    if right.Ok? && right.value.next < |ts| {
      var next := right.value.next;
      var inner := Binary(left, Multiple, right.value.node);
      ParseOperationAccepted(ts, inner, next);
      var r := ParseOperation(ts, inner, next);
      if r.Ok? {
        EndsGroupFrom(ts, j, next, r.value.next);
      }
    }
  }

  /** What `*` gives: the failure of the atom after it, or the product with that atom, followed
      by whatever operation comes next. */
  lemma ParseProduct(ts: seq<string>, left: Node, j: nat)
    requires j < |ts| && WellFormed(left) && FromValue(ts[j]) == Multiple
    ensures var right, r := GetEvaluator(ts, j + 1), ParseOperation(ts, left, j);
            && (right.Err? ==> r == Err(right.error))
            && (right.Ok? && right.value.next < |ts| ==>
                  r == ParseOperation(ts, Binary(left, Multiple, right.value.node), right.value.next))
            && (right.Ok? && right.value.next == |ts| ==>
                  r == Ok(Parsed(Binary(left, Multiple, right.value.node), |ts|)))
  {
  }

  /** A lone `++x` or `x++` is a single token. */
  lemma TokenizeIncrement(expression: string)
    requires IsUnaryOperator(expression)
    ensures Tokenize(expression) == [expression]
  {
    assert Pad(expression[2..]) == expression[2..];
    assert Pad(expression[1..]) == expression[1..];
    assert Pad(expression) == expression;
    assert Word(expression[2..]) == expression[2..];
    assert Word(expression[1..]) == expression[1..];
    assert Word(expression) == expression;
    assert Scan(expression[|expression|..]) == [];
  }

  /** On an accepted expression the builder reads every token and returns an assignment or a
      post-increment, or fails because a number is too large for `int` or a non-variable stands
      in front of `=`/`+=`; it never
      runs out of tokens and never meets a token that is not an atom. */
  lemma BuildAccepted(expression: string)
    requires Accepted(expression)
    ensures var ts := Tokenize(expression);
            var r := BuildExpression(ts, 0);
            && Reached(r)
            && (r.Ok? ==> r.value.next == |ts| && (r.value.node.Assignment? || r.value.node.PostIncrement?))
  {
    var ts := Tokenize(expression);
    BuildExpressionAccepted(ts, 0);
    var r := BuildExpression(ts, 0);
    if r.Ok? {
      ReadsToTheEnd(ts, r.value.next);
      if IsUnaryOperator(expression) {
        TokenizeIncrement(expression);
      } else {
        AssignmentExpressionShape(expression);
        TopIsAssignment(ts);
      }
    }
  }

  /** A build from the start of a balanced sequence cannot stop after a `)`: that would
      close more than was opened. */
  lemma ReadsToTheEnd(ts: seq<string>, next: nat)
    requires Balanced(ts) && 0 < next <= |ts| && EndsGroup(ts, 0, next)
    ensures next == |ts|
  {
    assert Depth(ts[..0]) == 0;
    assert Depth(ts[..next]) >= 0;
  }

  /** After a variable and `=` or `+=`, the tree at the top is an assignment. */
  lemma TopIsAssignment(ts: seq<string>)
    requires |ts| >= 2 && IsVariable(ts[0]) && (ts[1] == "=" || ts[1] == "+=")
    ensures BuildExpression(ts, 0).Ok? ==> BuildExpression(ts, 0).value.node.Assignment?
  {
    TokenClassesDisjoint(ts[0]);
    var left := Variable(ts[0][0]);
    assert GetEvaluator(ts, 0) == Ok(Parsed(left, 1));
    assert BuildExpression(ts, 0) == ParseOperation(ts, left, 1);
    FromValueExact(ts[1], Assign);
    FromValueExact(ts[1], AddAssign);
    assert TargetName(left) == Ok(ts[0][0]);
  }
}
