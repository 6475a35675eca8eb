/**
 * The fused parser and tree builder of src/main/java/org/taboola/ExpressionCalculator.java
 * (`buildExpression`, `parseOperation`, `getEvaluator`). The `Scanner` the three methods
 * share is a token sequence with an explicit cursor: each function takes the position of
 * the next unread token and returns the tree together with the position after what it read.
 */
module ExpressionBuilder {
  import opened Results
  import opened ExpressionUtils
  import opened Operators
  import opened Tokenizer
  import opened Evaluator

  /** Ways the builder can fail. */
  datatype BuildError =
    | MissingToken            // `scanner.next()` with no token left
    | NotAnAtom(token: string) // `getEvaluator` met a token it cannot turn into a node (the source returns null)
    | NotAVariable            // the cast `(VariableExpression) left` in front of `=` or `+=` fails
    | NumberOutOfRange(token: string) // `Integer.parseInt` rejects a number above the largest `int`

  /** A tree and the cursor after the tokens it was built from. */
  datatype Parsed = Parsed(node: Node, next: nat)

  /** The cast to `VariableExpression` and `getName()`: a variable, or a post-increment
      (a subclass of it), names a target; any other node does not. */
  function TargetName(left: Node): (r: Result<char, BuildError>)
    ensures r.Ok? <==> left.Variable? || left.PostIncrement?
    ensures r.Ok? ==> r.value == left.name
  {
    match left
    case Variable(x) => Ok(x)
    case PostIncrement(x) => Ok(x)
    case _ => Err(NotAVariable)
  }

  /** `getEvaluator`: reads one token and turns it into an atom; `(` builds a whole
      sub-expression and leaves its `)` unread. */
  function GetEvaluator(ts: seq<string>, pos: nat): (r: Result<Parsed, BuildError>)
    requires pos <= |ts|
    ensures r.Ok? ==> pos < r.value.next <= |ts| && WellFormed(r.value.node)
    decreases |ts| - pos, 0
  {
    if pos == |ts| then Err(MissingToken)
    else
      var token := ts[pos];
      if IsNumber(token) then
        if NumberValue(token) <= IntMax then Ok(Parsed(Number(NumberValue(token)), pos + 1))
        else Err(NumberOutOfRange(token))
      else if IsVariable(token) then Ok(Parsed(Variable(token[0]), pos + 1))
      else if IsPostIncrement(token) then Ok(Parsed(PostIncrement(token[0]), pos + 1))
      else if IsPreIncrement(token) then
        var increment := Binary(Number(1), Add, Variable(token[2]));
        assert WellFormed(Number(1)) && WellFormed(Variable(token[2]));
        Ok(Parsed(Assignment(token[2], increment), pos + 1))
      else if IsOpeningParenthesis(token) then BuildExpression(ts, pos + 1)
      else Err(NotAnAtom(token))
  }

  /** `buildExpression`: an atom, then whatever `parseOperation` makes of it. */
  function BuildExpression(ts: seq<string>, pos: nat): (r: Result<Parsed, BuildError>)
    requires pos <= |ts|
    ensures r.Ok? ==> pos < r.value.next <= |ts| && WellFormed(r.value.node)
    decreases |ts| - pos, 1
  {
    var left :- GetEvaluator(ts, pos);
    ParseOperation(ts, left.node, left.next)
  }

  /** `parseOperation`: with no token left, `left` itself. Otherwise one token is read as an
      operator: `+` and `-` take the whole rest as their right operand, `*` takes one atom and
      goes on, `=` and `+=` assign the rest to `left`, and anything else (`)` in particular)
      is dropped and `left` returned. */
  function ParseOperation(ts: seq<string>, left: Node, pos: nat): (r: Result<Parsed, BuildError>)
    requires pos <= |ts|
    requires WellFormed(left)
    ensures r.Ok? ==> pos <= r.value.next <= |ts| && WellFormed(r.value.node)
    ensures r.Ok? && pos < |ts| ==> pos < r.value.next
    decreases |ts| - pos, 2
  {
    if pos == |ts| then Ok(Parsed(left, pos))
    else
      var operator := FromValue(ts[pos]);
      match operator
      case Add =>
        var right :- BuildExpression(ts, pos + 1);
        Ok(Parsed(Binary(left, operator, right.node), right.next))
      case Sub =>
        var right :- BuildExpression(ts, pos + 1);
        Ok(Parsed(Binary(left, operator, right.node), right.next))
      case Multiple =>
        var right :- GetEvaluator(ts, pos + 1);
        var inner := Binary(left, operator, right.node);
        if right.next < |ts| then ParseOperation(ts, inner, right.next)
        else Ok(Parsed(inner, right.next))
      case Assign =>
        var target :- TargetName(left);
        var right :- BuildExpression(ts, pos + 1);
        Ok(Parsed(Assignment(target, right.node), right.next))
      case AddAssign =>
        var target :- TargetName(left);
        var right :- BuildExpression(ts, pos + 1);
        Ok(Parsed(Assignment(target, Binary(left, Add, right.node)), right.next))
      case Unknown =>
        Ok(Parsed(left, pos + 1))
  }

  /** The tree `calculate` evaluates: built from the first token of the padded expression;
      tokens the builder does not reach are ignored. */
  function Build(expression: string): (r: Result<Node, BuildError>)
    ensures r.Ok? ==> WellFormed(r.value)
  {
    var parsed :- BuildExpression(Tokenize(expression), 0);
    Ok(parsed.node)
  }
}
