/**
 * The evaluation tree (src/main/java/org/taboola/evaluator/): one node kind per
 * `Evaluable` class. The variable store every node of the source shares by reference is
 * threaded through evaluation as a value; an evaluation returns the store as it was left,
 * also when it fails, since the source applies writes as it goes and never rolls them back.
 */
module Evaluator {
  import opened Results
  import opened Operators
  import opened ExpressionUtils

  type Store = map<char, int>

  datatype Node =
    | Number(value: int)                            // NumberExpression
    | Variable(name: char)                          // VariableExpression
    | Binary(left: Node, op: Operator, right: Node) // Expression
    | Assignment(target: char, expression: Node)    // AssignmentExpression
    | PostIncrement(name: char)                     // PostIncrementVariableExpression

  /** `UndefinedVariableException`, with the name whose read failed. */
  datatype EvalError = UndefinedVariable(name: char)

  /** What evaluating a node gives: its value or the error, and the store afterwards. */
  datatype Evaluation = Evaluation(result: Result<int, EvalError>, store: Store)

  const IntMin: int := -0x8000_0000
  const IntMax: int := 0x7FFF_FFFF

  /** A value of Java's 32-bit `int`. */
  predicate IsInt(x: int) {
    IntMin <= x <= IntMax
  }

  /** Java `int` arithmetic: the exact result reduced to 32 bits in two's complement. */
  function Wrap(x: int): (w: int)
    ensures IsInt(w)
    ensures (w - x) % 0x1_0000_0000 == 0
    ensures IsInt(x) ==> w == x
  {
    (x - IntMin) % 0x1_0000_0000 + IntMin
  }

  /** The switch of `Expression.eval`; an operator tag other than the three arithmetic ones gives 0. */
  function Apply(op: Operator, a: int, b: int): int {
    match op
    case Add => Wrap(a + b)
    case Sub => Wrap(a - b)
    case Multiple => Wrap(a * b)
    case _ => 0
  }

  function Eval(n: Node, s: Store): Evaluation {
    match n
    case Number(v) => Evaluation(Ok(v), s)
    case Variable(x) =>
      if x in s then Evaluation(Ok(s[x]), s) else Evaluation(Err(UndefinedVariable(x)), s)
    case Binary(l, op, r) =>
      var left := Eval(l, s);
      if left.result.Err? then left
      else
        var right := Eval(r, left.store);
        if right.result.Err? then right
        else Evaluation(Ok(Apply(op, left.result.value, right.result.value)), right.store)
    case Assignment(x, e) =>
      var rhs := Eval(e, s);
      if rhs.result.Err? then rhs
      else Evaluation(rhs.result, rhs.store[x := rhs.result.value])
    case PostIncrement(x) =>
      if x in s then Evaluation(Ok(s[x]), s[x := Wrap(s[x] + 1)]) else Evaluation(Err(UndefinedVariable(x)), s)
  }

  /** The names a node may write: assignment targets and post-incremented variables. */
  function Writes(n: Node): set<char> {
    match n
    case Number(_) => {}
    case Variable(_) => {}
    case Binary(l, _, r) => Writes(l) + Writes(r)
    case Assignment(x, e) => {x} + Writes(e)
    case PostIncrement(x) => {x}
  }

  /** The names a node reads before it writes anything: those whose absence can make it fail. */
  function Reads(n: Node): set<char> {
    match n
    case Number(_) => {}
    case Variable(x) => {x}
    case Binary(l, _, r) => Reads(l) + Reads(r)
    case Assignment(_, e) => Reads(e)
    case PostIncrement(x) => {x}
  }

  /** The trees the builder produces: every operator tag is arithmetic, every number
      literal is an `int`, as `Integer.parseInt` makes them, and every name is a lowercase letter. */
  predicate WellFormed(n: Node) {
    match n
    case Number(v) => IsInt(v)
    case Variable(x) => IsLowercase(x)
    case Binary(l, op, r) => op in {Add, Sub, Multiple} && WellFormed(l) && WellFormed(r)
    case Assignment(x, e) => IsLowercase(x) && WellFormed(e)
    case PostIncrement(x) => IsLowercase(x)
  }

  /** What the calculator's store can hold: lowercase-letter names bound to `int`s. */
  predicate ValidStore(s: Store) {
    forall x :: x in s ==> IsLowercase(x) && IsInt(s[x])
  }

  /** Evaluating a well-formed tree keeps the store valid, failure or not, and a value it
      returns is an `int`. */
  lemma {:induction false} EvalKeepsStoreValid(n: Node, s: Store)
    requires WellFormed(n) && ValidStore(s)
    ensures ValidStore(Eval(n, s).store)
    ensures Eval(n, s).result.Ok? ==> IsInt(Eval(n, s).result.value)
  {
    match n
    case Number(_) =>
    case Variable(_) =>
    case Binary(l, op, r) =>
      EvalKeepsStoreValid(l, s);
      var left := Eval(l, s);
      if left.result.Ok? {
        EvalKeepsStoreValid(r, left.store);
      }
    case Assignment(x, e) =>
      EvalKeepsStoreValid(e, s);
    case PostIncrement(_) =>
  }

  /** One unfolding of `Eval` on a binary node, for proofs that follow a concrete tree. */
  lemma EvalBinary(l: Node, op: Operator, r: Node, s: Store)
    ensures var e := Eval(Binary(l, op, r), s);
            var left := Eval(l, s);
            if left.result.Err? then e == left
            else
              var right := Eval(r, left.store);
              && e.store == right.store
              && (right.result.Err? ==> e.result == right.result)
              && (right.result.Ok? ==> e.result == Ok(Apply(op, left.result.value, right.result.value)))
  {
  }

  /** The right side first; then its value is stored under the target (created or overwritten)
      and returned. If the right side fails, the target is not written. */
  lemma EvalAssignment(x: char, e: Node, s: Store)
    ensures Eval(e, s).result.Err? ==> Eval(Assignment(x, e), s) == Eval(e, s)
    ensures Eval(e, s).result.Ok? ==>
              var a, rhs := Eval(Assignment(x, e), s), Eval(e, s);
              && a.result == rhs.result
              && x in a.store && a.store[x] == rhs.result.value
              && (forall y :: y != x ==> (y in a.store <==> y in rhs.store))
              && (forall y :: y != x && y in rhs.store ==> a.store[y] == rhs.store[y])
  {
  }

  /** Post-increment returns the value held before and stores that value plus one; an unbound
      name fails and leaves the store unchanged; only the named slot changes. */
  lemma EvalPostIncrement(x: char, s: Store)
    ensures var p := Eval(PostIncrement(x), s);
            && (x !in s ==> p == Evaluation(Err(UndefinedVariable(x)), s))
            && (x in s ==> p.result == Ok(s[x]) && p.store.Keys == s.Keys && p.store[x] == Wrap(s[x] + 1)
                           && forall y :: y in s && y != x ==> p.store[y] == s[y])
  {
  }

  /** Slots outside `Writes(n)` are untouched, and no slot is ever removed, whether the
      evaluation succeeds or fails. */
  lemma {:induction false} EvalFrame(n: Node, s: Store)
    ensures s.Keys <= Eval(n, s).store.Keys
    ensures forall y :: y !in Writes(n) ==> (y in Eval(n, s).store <==> y in s)
    ensures forall y :: y in s && y !in Writes(n) ==> Eval(n, s).store[y] == s[y]
  {
    match n
    case Number(_) =>
    case Variable(_) =>
    case Binary(l, op, r) =>
      EvalFrame(l, s);
      var left := Eval(l, s);
      if left.result.Ok? {
        EvalFrame(r, left.store);
      }
    case Assignment(x, e) =>
      EvalFrame(e, s);
    case PostIncrement(_) =>
  }

  /** A node with no assignment and no post-increment leaves the store exactly as it was. */
  lemma ReadOnlyEvalKeepsStore(n: Node, s: Store)
    requires Writes(n) == {}
    ensures Eval(n, s).store == s
  {
    EvalFrame(n, s);
  }

  /** When every name the tree reads is bound, evaluation cannot fail. */
  lemma {:induction false} EvalDefined(n: Node, s: Store)
    requires Reads(n) <= s.Keys
    ensures Eval(n, s).result.Ok?
  {
    match n
    case Number(_) =>
    case Variable(_) =>
    case Binary(l, op, r) =>
      EvalDefined(l, s);
      EvalFrame(l, s);
      EvalDefined(r, Eval(l, s).store);
    case Assignment(x, e) =>
      EvalDefined(e, s);
    case PostIncrement(_) =>
  }

  /** Conversely, a failure always names a variable the tree reads and that was not bound
      when the evaluation started. */
  lemma {:induction false} EvalFailureNamesRead(n: Node, s: Store)
    requires Eval(n, s).result.Err?
    ensures Eval(n, s).result.error.name in Reads(n)
    ensures Eval(n, s).result.error.name !in s
  {
    match n
    case Number(_) =>
    case Variable(_) =>
    case Binary(l, op, r) =>
      if Eval(l, s).result.Err? {
        EvalFailureNamesRead(l, s);
      } else {
        EvalFailureNamesRead(r, Eval(l, s).store);
        EvalFrame(l, s);
      }
    case Assignment(x, e) =>
      EvalFailureNamesRead(e, s);
    case PostIncrement(_) =>
  }
}
