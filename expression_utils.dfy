/**
 * Classifiers for single whitespace-free tokens of an expression
 * (src/main/java/org/taboola/ExpressionUtils.java). Each regular expression of
 * the source is written out as an explicit predicate over the characters.
 */
module ExpressionUtils {

  predicate IsDigit(c: char) {
    '0' <= c <= '9'
  }

  predicate IsLowercase(c: char) {
    'a' <= c <= 'z'
  }

  /** `[0-9]+`: one or more ASCII digits and nothing else. */
  predicate IsNumber(s: string) {
    |s| > 0 && forall i :: 0 <= i < |s| ==> IsDigit(s[i])
  }

  /** `[a-z]`: exactly one lowercase ASCII letter. */
  predicate IsVariable(s: string) {
    |s| == 1 && IsLowercase(s[0])
  }

  /** `\+\+[a-z]`, as in `++x`. */
  predicate IsPreIncrement(s: string) {
    |s| == 3 && s[0] == '+' && s[1] == '+' && IsLowercase(s[2])
  }

  /** `[a-z]\+\+`, as in `x++`. */
  predicate IsPostIncrement(s: string) {
    |s| == 3 && IsLowercase(s[0]) && s[1] == '+' && s[2] == '+'
  }

  predicate IsOpeningParenthesis(s: string) {
    s == "("
  }

  predicate IsClosingParenthesis(s: string) {
    s == ")"
  }

  /** `[+\-*=]|\+=`: one of the five operator symbols, matched as a whole. */
  predicate IsOperator(s: string) {
    (|s| == 1 && (s[0] == '+' || s[0] == '-' || s[0] == '*' || s[0] == '=')) || s == "+="
  }

  predicate IsUnaryOperator(s: string) {
    IsPostIncrement(s) || IsPreIncrement(s)
  }

  predicate IsOperand(s: string) {
    IsNumber(s) || IsVariable(s) || IsUnaryOperator(s)
  }

  /** The decimal value of a digit string, as `Integer.parseInt` reads it (without its 32-bit range check). */
  function NumberValue(s: string): (n: nat)
    requires IsNumber(s)
    decreases |s|
  {
    var last := s[|s| - 1] as int - '0' as int;
    if |s| == 1 then last else NumberValue(s[..|s| - 1]) * 10 + last
  }

  /** The classes are disjoint: no token is both an operand and an operator, and neither
      parenthesis is one of them. */
  lemma TokenClassesDisjoint(s: string)
    ensures !(IsOperand(s) && IsOperator(s))
    ensures IsOpeningParenthesis(s) ==> !IsOperand(s) && !IsOperator(s)
    ensures IsClosingParenthesis(s) ==> !IsOperand(s) && !IsOperator(s)
    ensures !(IsPreIncrement(s) && IsPostIncrement(s))
  {
    if |s| > 0 {
      assert !IsDigit(s[0]) ==> !IsNumber(s);
    }
  }
}
