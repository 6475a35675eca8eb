/**
 * The operator vocabulary (src/main/java/org/taboola/enums/Operator.java): five
 * symbols and an `Unknown` fallback whose symbol is the empty string.
 */
module Operators {
  import opened ExpressionUtils

  datatype Operator = Add | Sub | Multiple | Assign | AddAssign | Unknown

  function Symbol(op: Operator): string {
    match op
    case Add => "+"
    case Sub => "-"
    case Multiple => "*"
    case Assign => "="
    case AddAssign => "+="
    case Unknown => ""
  }

  /** `Operator.values()`, in declaration order. */
  const Values: seq<Operator> := [Add, Sub, Multiple, Assign, AddAssign, Unknown]

  /** Every constant is among `Values`. */
  lemma ValuesComplete()
    ensures forall op :: op in Values
  {
    forall op ensures op in Values {
      match op
      case Add => assert Values[0] == op;
      case Sub => assert Values[1] == op;
      case Multiple => assert Values[2] == op;
      case Assign => assert Values[3] == op;
      case AddAssign => assert Values[4] == op;
      case Unknown => assert Values[5] == op;
    }
  }

  /** The linear search of `fromValue` over `ops`: the first constant whose symbol is `value`, else `Unknown`. */
  function Find(ops: seq<Operator>, value: string): (r: Operator)
    ensures r == Unknown || r in ops
    ensures (exists op :: op in ops && Symbol(op) == value) ==> Symbol(r) == value
    ensures (forall op :: op in ops ==> Symbol(op) != value) ==> r == Unknown
  {
    if ops == [] then Unknown
    else if Symbol(ops[0]) == value then ops[0]
    else
      assert forall op :: op in ops && op != ops[0] ==> op in ops[1..];
      Find(ops[1..], value)
  }

  /** `Operator.fromValue`: whole-string match against the symbols, `Unknown` when none matches. */
  function FromValue(value: string): (r: Operator)
    ensures (exists op :: Symbol(op) == value) ==> Symbol(r) == value
    ensures (forall op :: Symbol(op) != value) ==> r == Unknown
  {
    ValuesComplete();
    Find(Values, value)
  }

  /** The symbols are pairwise distinct. */
  lemma SymbolInjective(a: Operator, b: Operator)
    ensures Symbol(a) == Symbol(b) ==> a == b
  {
  }

  /** Looking up a constant's own symbol gives back that constant. */
  lemma FromValueSymbol(op: Operator)
    ensures FromValue(Symbol(op)) == op
  {
    SymbolInjective(FromValue(Symbol(op)), op);
  }

  /** A token names a known operator exactly when the token classifier calls it an operator. */
  lemma FromValueKnownIffOperator(s: string)
    ensures FromValue(s) != Unknown <==> IsOperator(s)
  {
    if IsOperator(s) {
      if s == "+=" {
        FromValueSymbol(AddAssign);
      } else if s[0] == '+' {
        assert s == Symbol(Add);
      } else if s[0] == '-' {
        assert s == Symbol(Sub);
      } else if s[0] == '*' {
        assert s == Symbol(Multiple);
      } else {
        assert s == Symbol(Assign);
      }
    }
    var r := FromValue(s);
    if r != Unknown {
      assert Symbol(r) == s;
    }
  }

  /** Matching is on the whole token: a known constant is returned exactly for its own symbol. */
  lemma FromValueExact(s: string, op: Operator)
    requires op != Unknown
    ensures FromValue(s) == op <==> s == Symbol(op)
  {
    FromValueSymbol(op);
    if FromValue(s) == op {
      assert Symbol(FromValue(s)) == s;
    }
  }

  /** Each of the five symbols maps to its constant; everything else, parentheses and `++` included, to `Unknown`. */
  lemma FromValueTable()
    ensures FromValue("+") == Add && FromValue("-") == Sub && FromValue("*") == Multiple
    ensures FromValue("=") == Assign && FromValue("+=") == AddAssign
    ensures FromValue(")") == Unknown && FromValue("(") == Unknown
    ensures FromValue("++") == Unknown && FromValue("==") == Unknown && FromValue("/") == Unknown
  {
    FromValueSymbol(Add);
    FromValueSymbol(Sub);
    FromValueSymbol(Multiple);
    FromValueSymbol(Assign);
    FromValueSymbol(AddAssign);
    FromValueKnownIffOperator(")");
    FromValueKnownIffOperator("(");
    FromValueKnownIffOperator("++");
    FromValueKnownIffOperator("==");
    FromValueKnownIffOperator("/");
  }
}
