/**
 * The validator (src/main/java/org/taboola/ExpressionValidator.java): four checks run
 * in order, and the first that fails rejects the expression.
 */
module ExpressionValidator {
  import opened Results
  import opened ExpressionUtils
  import opened Operators
  import opened Tokenizer

  /** The regular-expression class `\s`: space, tab, line feed, vertical tab, form feed, carriage return. */
  predicate IsRegexSpace(c: char) {
    c == ' ' || c == '\t' || c == '\n' || c == '\U{B}' || c == '\U{C}' || c == '\r'
  }

  /** One character of the class `[a-zA-Z0-9+\-*=()\s]`. */
  predicate IsAllowedCharacter(c: char) {
    || IsLowercase(c)
    || ('A' <= c <= 'Z')
    || IsDigit(c)
    || c == '+' || c == '-' || c == '*' || c == '=' || c == '(' || c == ')'
    || IsRegexSpace(c)
  }

  /** Check 1: the whole string matches `[a-zA-Z0-9+\-*=()\s]+`, so the empty string fails. */
  predicate HasValidCharacters(expression: string) {
    |expression| > 0 && forall i :: 0 <= i < |expression| ==> IsAllowedCharacter(expression[i])
  }

  /** What one token does to the parenthesis counter. */
  function Delta(token: string): int {
    if IsOpeningParenthesis(token) then 1 else if IsClosingParenthesis(token) then -1 else 0
  }

  /** The counter after the tokens `ts`: opened minus closed parentheses. */
  function Depth(ts: seq<string>): int {
    if ts == [] then 0 else Depth(ts[..|ts| - 1]) + Delta(ts[|ts| - 1])
  }

  /** No prefix closes more parentheses than it opens, and the whole sequence closes them all. */
  predicate Balanced(ts: seq<string>) {
    (forall k :: 0 <= k <= |ts| ==> Depth(ts[..k]) >= 0) && Depth(ts) == 0
  }

  lemma DepthStep(ts: seq<string>, i: nat)
    requires i < |ts|
    ensures Depth(ts[..i + 1]) == Depth(ts[..i]) + Delta(ts[i])
  {
    assert ts[..i + 1][..i] == ts[..i];
  }

  /** The counter over a sequence with a single `(` at `open` and a single `)` at `close`,
      or none at all when `open == close == |ts|`, is 1 exactly between them. */
  lemma {:induction false} DepthOneGroup(ts: seq<string>, open: nat, close: nat, k: nat)
    requires ((open < close < |ts|) || (open == close == |ts|)) && k <= |ts|
    requires forall i :: 0 <= i < |ts| ==> (IsOpeningParenthesis(ts[i]) <==> i == open)
    requires forall i :: 0 <= i < |ts| ==> (IsClosingParenthesis(ts[i]) <==> i == close)
    ensures Depth(ts[..k]) == if open < k <= close then 1 else 0
  {
    if k > 0 {
      DepthOneGroup(ts, open, close, k - 1);
      DepthStep(ts, k - 1);
    }
  }

  /** Such a sequence is balanced. */
  lemma OneGroupBalanced(ts: seq<string>, open: nat, close: nat)
    requires (open < close < |ts|) || (open == close == |ts|)
    requires forall i :: 0 <= i < |ts| ==> (IsOpeningParenthesis(ts[i]) <==> i == open)
    requires forall i :: 0 <= i < |ts| ==> (IsClosingParenthesis(ts[i]) <==> i == close)
    ensures Balanced(ts)
  {
    forall k | 0 <= k <= |ts|
      ensures Depth(ts[..k]) >= 0
    {
      DepthOneGroup(ts, open, close, k);
    }
    DepthOneGroup(ts, open, close, |ts|);
    assert ts[..|ts|] == ts;
  }

  /** Check 2: the running count of the source, rejecting as soon as it goes negative. */
  method IsBalancedParentheses(expression: string) returns (balanced: bool)
    ensures balanced == Balanced(Tokenize(expression))
  {
    var balance := 0;
    var tokens := Tokenize(expression);
    var i := 0;
    while i < |tokens|
      invariant 0 <= i <= |tokens|
      invariant balance == Depth(tokens[..i])
      invariant forall k :: 0 <= k <= i ==> Depth(tokens[..k]) >= 0
    {
      var token := tokens[i];
      if IsOpeningParenthesis(token) {
        balance := balance + 1;
      } else if IsClosingParenthesis(token) {
        balance := balance - 1;
      }
      assert tokens[..i + 1][..i] == tokens[..i];
      i := i + 1;
      if balance < 0 {
        return false;
      }
    }
    assert tokens[..i] == tokens;
    balanced := balance == 0;
  }

  /** Check 3: a lone `++x`/`x++` (the raw string itself, so no surrounding whitespace),
      or a variable token followed by the token `=` or `+=`. */
  predicate IsAssignmentExpression(expression: string) {
    if IsUnaryOperator(expression) then true
    else
      var tokens := Tokenize(expression);
      if |tokens| == 0 then false
      else if IsVariable(tokens[0]) then
        if |tokens| < 2 then false
        else
          var operator := FromValue(tokens[1]);
          operator == Assign || operator == AddAssign
      else false
  }

  /** The shape check compares the second token with `=` and `+=` as whole strings. */
  lemma AssignmentExpressionShape(expression: string)
    ensures IsAssignmentExpression(expression) <==>
              || IsUnaryOperator(expression)
              || (var tokens := Tokenize(expression);
                  |tokens| >= 2 && IsVariable(tokens[0]) && (tokens[1] == "=" || tokens[1] == "+="))
  {
    var tokens := Tokenize(expression);
    if |tokens| >= 2 {
      FromValueExact(tokens[1], Assign);
      FromValueExact(tokens[1], AddAssign);
    }
  }

  /** A token after which an operator or `)` may come: an operand or `)`. */
  predicate IsValueEnd(token: string) {
    IsOperand(token) || IsClosingParenthesis(token)
  }

  /** The token at `i` may stand after its predecessor: an operator or `)` only after an
      operand or `)`; an operand or `(` only first or after an operator or `(`; nothing else anywhere. */
  predicate Fits(ts: seq<string>, i: nat)
    requires i < |ts|
  {
    if IsOperator(ts[i]) || IsClosingParenthesis(ts[i]) then i > 0 && IsValueEnd(ts[i - 1])
    else if IsOperand(ts[i]) || IsOpeningParenthesis(ts[i]) then i == 0 || !IsValueEnd(ts[i - 1])
    else false
  }

  /** Operands and operators alternate, parentheses open before an operand and close after one,
      and the sequence is not empty and ends with an operand or `)`. */
  predicate WellStructured(ts: seq<string>) {
    |ts| > 0 && (forall i :: 0 <= i < |ts| ==> Fits(ts, i)) && IsValueEnd(ts[|ts| - 1])
  }

  /** Check 4: the source's walk over the tokens with `expectingOperand` and `previous`. */
  method IsValidStructure(expression: string) returns (valid: bool)
    ensures valid == (!IsBlank(expression) && WellStructured(Tokenize(expression)))
  {
    if IsBlank(expression) {
      return false;
    }
    var previous: Option<string> := None;
    var expectingOperand := true;
    var isValidStructure := true;
    var tokens := Tokenize(expression);
    var i := 0;
    while i < |tokens|
      invariant 0 <= i <= |tokens|
      invariant isValidStructure
      invariant previous == if i == 0 then None else Some(tokens[i - 1])
      invariant expectingOperand == (i == 0 || !IsValueEnd(tokens[i - 1]))
      invariant forall k :: 0 <= k < i ==> Fits(tokens, k)
    {
      var token := tokens[i];
      TokenClassesDisjoint(token);
      if previous.Some? {
        TokenClassesDisjoint(previous.value);
      }
      if IsOperator(token) {
        if expectingOperand {
          assert !Fits(tokens, i);
          isValidStructure := false;
          break;
        }
        expectingOperand := true;
      } else if IsClosingParenthesis(token) {
        if expectingOperand || previous.None? || IsOpeningParenthesis(previous.value) {
          assert !Fits(tokens, i);
          isValidStructure := false;
          break;
        }
      } else if IsOperand(token) || IsOpeningParenthesis(token) {
        var isInvalidPrevious := previous.Some? && (IsOperand(previous.value) || IsClosingParenthesis(previous.value));
        if !expectingOperand || isInvalidPrevious {
          assert !Fits(tokens, i);
          isValidStructure := false;
          break;
        }
        if IsOperand(token) {
          expectingOperand := false;
        }
      } else {
        assert !Fits(tokens, i);
        isValidStructure := false;
        break;
      }
      previous := Some(token);
      i := i + 1;
    }
    valid := isValidStructure && !expectingOperand;
  }

  /** The four checks together. */
  predicate Accepted(expression: string) {
    && HasValidCharacters(expression)
    && Balanced(Tokenize(expression))
    && IsAssignmentExpression(expression)
    && !IsBlank(expression)
    && WellStructured(Tokenize(expression))
  }

  /** `isValidExpression`: the checks in the source's order, the first failure rejecting. */
  method IsValidExpression(expression: string) returns (valid: bool)
    ensures valid == Accepted(expression)
  {
    if !HasValidCharacters(expression) {
      return false;
    }
    var balanced := IsBalancedParentheses(expression);
    if !balanced {
      return false;
    }
    if !IsAssignmentExpression(expression) {
      return false;
    }
    valid := IsValidStructure(expression);
  }
}
