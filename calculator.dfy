/**
 * The calculator of src/main/java/org/taboola/ExpressionCalculator.java: it owns the variable
 * store, validates an expression, builds its tree and evaluates it against the store. The
 * exceptions of the source (`InvalidExpression`, a failing cast or `parseInt`,
 * `UndefinedVariableException`) are the `Err` side of the result.
 */
module ExpressionCalculator {
  import opened Results
  import opened ExpressionUtils
  import opened Tokenizer
  import opened Evaluator
  import opened ExpressionValidator
  import opened ExpressionBuilder
  import opened VariablesText
  import opened BuilderProperties

  datatype CalcError =
    | InvalidExpression         // the validator rejected the expression
    | NotBuilt(cause: BuildError) // building the tree threw
    | Failed(reason: EvalError)   // evaluation threw

  /** A result of `calculate` together with the store it leaves behind. */
  datatype Outcome = Outcome(result: Result<int, CalcError>, store: Store)

  /** What one call of `calculate` does to a store: a rejected expression and a tree that
      cannot be built leave it alone; otherwise the tree is evaluated against it, and the
      writes made before a failure stay. */
  function Calculation(expression: string, s: Store): Outcome {
    if !Accepted(expression) then Outcome(Err(InvalidExpression), s)
    else
      match Build(expression)
      case Err(e) => Outcome(Err(NotBuilt(e)), s)
      case Ok(tree) =>
        var e := Eval(tree, s);
        match e.result
        case Ok(v) => Outcome(Ok(v), e.store)
        case Err(u) => Outcome(Err(Failed(u)), e.store)
  }

  class Calculator {
    /** `variableToNumber`, shared by reference with every node of a tree being evaluated. */
    var variables: Store

    /** A new calculator has no variables. */
    constructor()
      ensures variables == map[]
    {
      variables := map[];
    }

    /** The `eval` of the node classes, each reading and writing the one shared store in place. */
    method Evaluate(n: Node) returns (r: Result<int, EvalError>)
      modifies this
      ensures Evaluation(r, variables) == Eval(n, old(variables))
      decreases n
    {
      match n
      case Number(v) =>
        r := Ok(v);
      case Variable(x) =>
        if x !in variables {
          r := Err(UndefinedVariable(x));
        } else {
          r := Ok(variables[x]);
        }
      case Binary(left, op, right) =>
        var a := Evaluate(left);
        if a.Err? {
          return a;
        }
        var b := Evaluate(right);
        if b.Err? {
          return b;
        }
        r := Ok(Apply(op, a.value, b.value));
      case Assignment(x, e) =>
        r := Evaluate(e);
        if r.Ok? {
          variables := variables[x := r.value];
        }
      case PostIncrement(x) =>
        if x !in variables {
          r := Err(UndefinedVariable(x));
        } else {
          r := Ok(variables[x]);
          variables := variables[x := Wrap(variables[x] + 1)];
        }
    }

    /** `calculate`: validate, build, evaluate. */
    method Calculate(expression: string) returns (r: Result<int, CalcError>)
      modifies this
      ensures Outcome(r, variables) == Calculation(expression, old(variables))
      ensures ValidStore(old(variables)) ==> ValidStore(variables)
    {
      if ValidStore(variables) {
        CalculationKeepsStoreValid(expression, variables);
      }
      var valid := IsValidExpression(expression);
      if !valid {
        return Err(InvalidExpression);
      }
      var tree := Build(expression);
      if tree.Err? {
        return Err(NotBuilt(tree.error));
      }
      var value := Evaluate(tree.value);
      if value.Err? {
        return Err(Failed(value.error));
      }
      r := Ok(value.value);
    }

    /** `getVariables`: a copy, so later calculations do not show through it. */
    method GetVariables() returns (m: Store)
      ensures m == variables
    {
      m := variables;
    }

    /** `getVariablesAsString`: a text from which the variables can be read back. */
    function VariablesAsString(): (s: string)
      reads this
      ensures s == Render(variables)
      ensures ValidStore(variables) ==> Read(s) == variables
    {
      StoreTextReadsBack(variables);
      Render(variables)
    }

    /** `reset`: every variable is forgotten. */
    method Reset()
      modifies this
      ensures variables == map[]
    {
      variables := map[];
    }
  }

  /** The calculator's store can be read back from its text: no name is a comma. */
  lemma StoreTextReadsBack(s: Store)
    ensures ValidStore(s) ==> Read(Render(s)) == s
  {
    if ValidStore(s) {
      assert !IsLowercase(',');
      ReadRender(s);
    }
  }

  /** Exactly the expressions the validator rejects raise `InvalidExpression`, and they leave
      the store alone. */
  lemma CalculationRejects(expression: string, s: Store)
    ensures Calculation(expression, s).result == Err(InvalidExpression) <==> !Accepted(expression)
    ensures !Accepted(expression) ==> Calculation(expression, s).store == s
  {
  }

  /** An accepted expression whose tree cannot be built failed the cast in front of `=`/`+=`
      or had a number too large for `int`; nothing was evaluated, so the store is unchanged. */
  lemma CalculationBuildFailures(expression: string, s: Store)
    requires Calculation(expression, s).result.Err? && Calculation(expression, s).result.error.NotBuilt?
    ensures Calculation(expression, s).result.error.cause in {NotAVariable}
            || Calculation(expression, s).result.error.cause.NumberOutOfRange?
    ensures Calculation(expression, s).store == s
  {
    BuildAccepted(expression);
  }

  /** A variable reported undefined was not bound before the call; the writes made before the
      failure stay in the store, and nothing else changes. */
  lemma CalculationUndefined(expression: string, s: Store)
    requires Calculation(expression, s).result.Err? && Calculation(expression, s).result.error.Failed?
    ensures Calculation(expression, s).result.error.reason.name !in s
    ensures s.Keys <= Calculation(expression, s).store.Keys
  {
    var tree := Build(expression).value;
    EvalFailureNamesRead(tree, s);
    EvalFrame(tree, s);
  }

  /** The store keeps lowercase names bound to `int`s, and a result is an `int`. */
  lemma CalculationKeepsStoreValid(expression: string, s: Store)
    requires ValidStore(s)
    ensures ValidStore(Calculation(expression, s).store)
    ensures Calculation(expression, s).result.Ok? ==> IsInt(Calculation(expression, s).result.value)
  {
    if Accepted(expression) && Build(expression).Ok? {
      EvalKeepsStoreValid(Build(expression).value, s);
    }
  }
}
