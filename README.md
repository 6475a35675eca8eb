# Integer expression calculator, modelled in Dafny

The calculator evaluates one line at a time in a small language. A line uses:

- single lowercase letters as variables;
- non-negative integer literals;
- parentheses;
- the binary operators `+`, `-` and `*`;
- assignment `=` and compound assignment `+=`;
- prefix and postfix increment (`++x`, `x++`).

Variables live in a store that persists from one `calculate` call to the next until `reset`.
A call of `calculate` runs in three stages:

1. The validator (`isValidExpression`) applies four checks in order:
   - the allowed characters;
   - balanced parentheses;
   - the assignment shape;
   - the operand/operator structure.
2. The builder (`buildExpression` / `parseOperation` / `getEvaluator`) reads the tokens. These are what `Scanner` returns after every parenthesis has been padded with spaces. The builder turns them into a tree of evaluator nodes.
3. The tree is evaluated against the store. Evaluation writes into the store as it goes.

The parser's associativity is unusual. `+` and `-` take the whole rest of the line (or of the group) as their right operand, so `9 - 2 - 3` is `9 - (2 - 3)`. `*` takes only the next atom.

The model has one module per source unit:

- `ExpressionUtils` holds the token classifiers. Each regular expression is written out as a predicate over characters.
- `Operators` holds `Operator` and `fromValue`.
- `Tokenizer` models the padding and the `Scanner` split on Java whitespace.
- `ExpressionValidator` holds the four checks. The two loops are methods, proved against the declarative predicates `Balanced` and `WellStructured`.
- `Evaluator` holds the node datatype and `Eval`. `Eval` threads the store through as a value and returns it also on failure.
- `ExpressionBuilder` holds the three builder functions over a token sequence with a cursor.
- `BuilderProperties` states what the validator guarantees the builder.
- `VariablesText` models `getVariablesAsString` and a reader that gets the store back from that text.
- `ExpressionCalculator` holds the `Calculator` class, whose store is a field updated in place.
- `Scenarios` follows whole calls of `calculate` for the shapes in the project's own tests.

Java `int` arithmetic is modelled explicitly: `Wrap` reduces to 32-bit two's complement. `Integer.parseInt` of a literal above 2147483647 is a build error. Every exception of the source is the `Err` side of a result.

A validated expression can still fail to build. `x = 1 = 2` passes all four checks, and then the cast `(VariableExpression) left` in front of the second `=` (ExpressionCalculator.java, line 140) fails on the number `1`. `Scenarios.CalculateDoubleAssign` states this outcome. `BuilderProperties.BuildAccepted` shows that this cast and an out-of-range literal are the only two ways an accepted expression can fail to build.

## Model

| member | source | states |
|---|---|---|
| ExpressionUtils.TokenClassesDisjoint | src/main/java/org/taboola/ExpressionUtils.java:78-102 | no token is both an operand and an operator; `(` and `)` are neither; no token is both a pre- and a post-increment |
| Operators.Find | src/main/java/org/taboola/enums/Operator.java:34-41 | the linear search returns a constant whose symbol is the value when one exists, and `UNKNOWN` when none does |
| Operators.FromValue | src/main/java/org/taboola/enums/Operator.java:34-41 | `fromValue` returns the constant carrying the given symbol, and `UNKNOWN` for every other string |
| Operators.ValuesComplete | src/main/java/org/taboola/enums/Operator.java:8-14 | `values()` lists every constant |
| Operators.SymbolInjective | src/main/java/org/taboola/enums/Operator.java:8-14 | no two constants share a symbol |
| Operators.FromValueSymbol | src/main/java/org/taboola/enums/Operator.java:34-41 | looking up a constant's own symbol returns that constant |
| Operators.FromValueKnownIffOperator | src/main/java/org/taboola/enums/Operator.java:34-41 | `fromValue` gives a known constant exactly for the tokens `isOperator` accepts |
| Operators.FromValueExact | src/main/java/org/taboola/enums/Operator.java:34-41 | the match is on the whole string: a known constant comes back if and only if the token is its symbol |
| Operators.FromValueTable | src/main/java/org/taboola/enums/Operator.java:8-14 | the five symbols map to their constants; `(`, `)`, `++`, `==` and `/` map to `UNKNOWN` |
| Tokenizer.Pad | src/main/java/org/taboola/ExpressionValidator.java:83 | after padding, every parenthesis has a space on each side |
| Tokenizer.Word | src/main/java/org/taboola/ExpressionValidator.java:84 | a token is the longest whitespace-free prefix of what is left |
| Tokenizer.Scan | src/main/java/org/taboola/ExpressionValidator.java:84 | `Scanner` returns only nonempty tokens without whitespace |
| Tokenizer.TokenizeIsolatesParentheses | src/main/java/org/taboola/ExpressionCalculator.java:67-68 | after padding, every parenthesis is a token of its own, never stuck to a neighbour |
| Tokenizer.PadAppend | src/main/java/org/taboola/ExpressionValidator.java:83 | padding works character by character, so it distributes over concatenation |
| Tokenizer.PadWithoutParentheses | src/main/java/org/taboola/ExpressionValidator.java:83 | padding leaves a string without parentheses unchanged |
| Tokenizer.ScanSpaced | src/main/java/org/taboola/ExpressionValidator.java:84 | scanning words separated by single spaces gives back exactly those words |
| Tokenizer.TokenizeGroup | src/main/java/org/taboola/ExpressionCalculator.java:67-68 | `a (b) c` written the usual way tokenizes to the words of `a`, `(`, the words of `b`, `)`, the words of `c` |
| ExpressionValidator.DepthOneGroup | src/main/java/org/taboola/ExpressionValidator.java:80-100 | with one `(` and one later `)` the running count is 1 exactly between them and 0 elsewhere |
| ExpressionValidator.OneGroupBalanced | src/main/java/org/taboola/ExpressionValidator.java:80-100 | one `(` before one `)`, or no parentheses at all, passes the balance check |
| ExpressionValidator.IsBalancedParentheses | src/main/java/org/taboola/ExpressionValidator.java:80-100 | the running count with early exit accepts exactly when no prefix of the tokens closes more than it opened and the whole opens as many as it closes |
| ExpressionValidator.AssignmentExpressionShape | src/main/java/org/taboola/ExpressionValidator.java:171-199 | the shape check accepts exactly a lone `x++`/`++x`, or a first token that is a variable followed by the token `=` or `+=` |
| ExpressionValidator.IsValidStructure | src/main/java/org/taboola/ExpressionValidator.java:109-160 | the walk with `expectingOperand` and `previous` accepts exactly the non-blank expressions whose tokens alternate operand and operator, open a group only where an operand may stand, close one only after an operand or `)`, and end on an operand or `)` |
| ExpressionValidator.IsValidExpression | src/main/java/org/taboola/ExpressionValidator.java:41-58 | the validator accepts exactly the expressions that pass all four checks |
| Evaluator.Wrap | src/main/java/org/taboola/evaluator/Expression.java:56-61 | the result is an `int`, congruent to the exact value modulo 2^32, and equal to it when that fits |
| Evaluator.EvalKeepsStoreValid | src/main/java/org/taboola/evaluator/Expression.java:51-62 | a built tree keeps the store a map from lowercase letters to `int`s, and whatever value it returns is an `int` |
| Evaluator.EvalAssignment | src/main/java/org/taboola/evaluator/AssignmentExpression.java:45-50 | the right side's value is stored under the target and returned, and every other slot is as the right side left it; if the right side throws, nothing is stored |
| Evaluator.EvalPostIncrement | src/main/java/org/taboola/evaluator/PostIncrementVariableExpression.java:30-35 | `x++` returns the old value and stores it plus one, with only that slot changed; an unbound `x` throws and changes nothing |
| Evaluator.EvalFrame | src/main/java/org/taboola/evaluator/AssignmentExpression.java:45-50 | evaluation never removes a variable and changes only the assignment targets and post-incremented names, whether it succeeds or throws |
| Evaluator.ReadOnlyEvalKeepsStore | src/main/java/org/taboola/evaluator/Expression.java:51-62 | a tree without assignments or increments leaves the store as it was |
| Evaluator.EvalDefined | src/main/java/org/taboola/evaluator/VariableExpression.java:47-54 | when every name the tree reads is bound, evaluation does not throw |
| Evaluator.EvalFailureNamesRead | src/main/java/org/taboola/evaluator/VariableExpression.java:47-54 | an `UndefinedVariableException` always concerns a name the tree reads and that was unbound when evaluation started |
| ExpressionBuilder.TargetName | src/main/java/org/taboola/ExpressionCalculator.java:140 | the cast to `VariableExpression` succeeds exactly for a variable or a post-increment (its subclass) and yields that name |
| ExpressionBuilder.GetEvaluator | src/main/java/org/taboola/ExpressionCalculator.java:158-180 | a successful read consumes at least one token and yields a tree whose literals are `int`s and whose names are lowercase letters |
| ExpressionBuilder.BuildExpression | src/main/java/org/taboola/ExpressionCalculator.java:112-115 | a successful build consumes at least one token and yields such a tree |
| ExpressionBuilder.ParseOperation | src/main/java/org/taboola/ExpressionCalculator.java:125-148 | the cursor never moves back, moves forward whenever a token is left, and a successful parse yields such a tree |
| ExpressionBuilder.Build | src/main/java/org/taboola/ExpressionCalculator.java:67-69 | the tree `calculate` evaluates has only arithmetic operators, `int` literals and lowercase names |
| BuilderProperties.OperatorFollowed | src/main/java/org/taboola/ExpressionValidator.java:125-131 | in an accepted token sequence, an operator is followed by an atom position, and `fromValue` names its constant |
| BuilderProperties.GetEvaluatorAccepted | src/main/java/org/taboola/ExpressionCalculator.java:158-180 | where the validator expects an operand, `getEvaluator` never runs out of tokens and never returns `null`, and a group it reads ends right after its own `)` |
| BuilderProperties.BuildExpressionAccepted | src/main/java/org/taboola/ExpressionCalculator.java:112-115 | on accepted tokens, `buildExpression` fails only on a cast or an oversized literal, and stops at the end or after the `)` closing its group |
| BuilderProperties.ParseOperationAccepted | src/main/java/org/taboola/ExpressionCalculator.java:125-148 | likewise for `parseOperation`: any token it drops is the `)` closing the current group |
| BuilderProperties.RestAccepted | src/main/java/org/taboola/ExpressionCalculator.java:131-132 | `+`, `-`, `=` and `+=` take the rest of the group as their right operand and stop where it ends |
| BuilderProperties.MultiplyAccepted | src/main/java/org/taboola/ExpressionCalculator.java:133-138 | `*` takes one atom and continues with the operation after it, stopping where the group ends |
| BuilderProperties.ParseRest | src/main/java/org/taboola/ExpressionCalculator.java:131-144 | `+`, `-`, `=` and `+=` succeed only when the right side builds, and then stop where it stops; they fail with the right side's error or with the cast failure in front of `=`/`+=` |
| BuilderProperties.TokenizeIncrement | src/main/java/org/taboola/ExpressionValidator.java:172-174 | a lone `x++` or `++x` is a single token |
| BuilderProperties.ReadsToTheEnd | src/main/java/org/taboola/ExpressionCalculator.java:69 | a build from the start of a balanced sequence cannot stop early after a `)` |
| BuilderProperties.TopIsAssignment | src/main/java/org/taboola/ExpressionCalculator.java:139-144 | after a variable and `=`/`+=`, a successful build has an assignment at the top |
| BuilderProperties.BuildAccepted | src/main/java/org/taboola/ExpressionCalculator.java:62-71 | on a validated expression the builder reads every token and returns an assignment or a post-increment; its only possible failures are a non-variable in front of `=`/`+=` and a literal above the `int` range |
| ExpressionCalculator.Calculator.constructor | src/main/java/org/taboola/ExpressionCalculator.java:44-47 | a new calculator has no variables |
| ExpressionCalculator.Calculator.Evaluate | src/main/java/org/taboola/evaluator/Expression.java:51-62 | evaluating the tree in place on the shared store gives the value and the store `Eval` describes |
| ExpressionCalculator.Calculator.Calculate | src/main/java/org/taboola/ExpressionCalculator.java:62-71 | `calculate` validates, builds and evaluates as `Calculation` describes, and keeps the store valid |
| ExpressionCalculator.Calculator.GetVariables | src/main/java/org/taboola/ExpressionCalculator.java:78-80 | returns the current bindings as a value that later calls do not change |
| ExpressionCalculator.Calculator.VariablesAsString | src/main/java/org/taboola/ExpressionCalculator.java:88-94 | the text is the sorted `key=value` rendering, and for a valid store it reads back to exactly the store |
| ExpressionCalculator.Calculator.Reset | src/main/java/org/taboola/ExpressionCalculator.java:99-101 | every variable is forgotten |
| ExpressionCalculator.StoreTextReadsBack | src/main/java/org/taboola/ExpressionCalculator.java:88-94 | the store's text loses nothing: reading it back gives the store |
| ExpressionCalculator.CalculationRejects | src/main/java/org/taboola/ExpressionCalculator.java:63-65 | `InvalidExpression` is thrown exactly for the expressions the validator rejects, and then the store is untouched |
| ExpressionCalculator.CalculationBuildFailures | src/main/java/org/taboola/ExpressionCalculator.java:69 | a failed build is a failed cast or a literal above the `int` range, and leaves the store untouched |
| ExpressionCalculator.CalculationUndefined | src/main/java/org/taboola/ExpressionCalculator.java:70 | an undefined-variable failure names a variable that was unbound before the call, and no variable is removed |
| ExpressionCalculator.CalculationKeepsStoreValid | src/main/java/org/taboola/ExpressionCalculator.java:62-71 | the store keeps lowercase names bound to `int`s, and a result is an `int` |
| VariablesText.NatToString | src/main/java/org/taboola/ExpressionCalculator.java:92 | the decimal text of a non-negative value reads back to it and has no leading zero |
| VariablesText.IntToString | src/main/java/org/taboola/ExpressionCalculator.java:92 | the text of any `int` reads back to it and holds no comma |
| VariablesText.SortedKeys | src/main/java/org/taboola/ExpressionCalculator.java:91 | the keys strictly ascending, each exactly once |
| VariablesText.Render | src/main/java/org/taboola/ExpressionCalculator.java:93 | the text is enclosed in parentheses |
| VariablesText.SplitJoin | src/main/java/org/taboola/ExpressionCalculator.java:93 | splitting at commas undoes joining with commas when no part holds one |
| VariablesText.ReadEntries | src/main/java/org/taboola/ExpressionCalculator.java:92 | the `key=value` entries describe the store on exactly their keys |
| VariablesText.ReadRender | src/main/java/org/taboola/ExpressionCalculator.java:88-94 | reading the text of a store back gives that store |
| VariablesText.RenderEmpty | src/main/java/org/taboola/ExpressionCalculator.java:88-94 | the text is `()` exactly when there are no variables |
| Scenarios.CalculateAssignDigit | src/test/java/taboola/ExpressionCalculatorTest.java:58 | `c = d` returns the digit's value and binds `c` to it, from any store |
| Scenarios.CalculateSum | src/test/java/taboola/ExpressionCalculatorTest.java:59 | `c = a + b` returns the sum and binds `c` to it, from any store |
| Scenarios.CalculateGroup | src/test/java/taboola/ExpressionCalculatorTest.java:60 | `c = (a + b) * d` evaluates the group first and binds `c` to `(a + b) * d` |
| Scenarios.CalculateChain | src/main/java/org/taboola/ExpressionCalculator.java:131-132 | `c = a - b - d` is right-associative: it binds `c` to `a - (b - d)` |
| Scenarios.CalculatePostIncrement | src/test/java/taboola/ExpressionCalculatorTest.java:62 | `w = x++ + d` stores the old `x` plus `d` in `w` and raises `x` by one; an unbound `x` throws and changes nothing |
| Scenarios.CalculatePreIncrement | src/test/java/taboola/ExpressionCalculatorTest.java:63 | `w += ++x + d` reads `w` first, raises `x`, and stores `w + (x + d)` in `w`; an unbound name throws and changes nothing |
| Scenarios.CalculateDoubleAssign | src/main/java/org/taboola/ExpressionCalculator.java:140 | `c = a = b` passes the validator, then fails on the cast of `a`, leaving the store untouched |
| Scenarios.CalculateLonePostIncrement | src/test/java/taboola/ExpressionValidatorTest.java:23 | a lone `c++` returns the old value and raises it; an unbound `c` throws |
| Scenarios.CalculateLonePreIncrement | src/main/java/org/taboola/ExpressionCalculator.java:170-174 | a lone `++c` raises the value and returns the raised value; an unbound `c` throws |
| Scenarios.RejectOperatorAfterAssign | src/test/java/taboola/ExpressionCalculatorTest.java:45 | `c = + d` throws `InvalidExpression` and leaves the store untouched |
| Scenarios.RejectOperandAfterOperand | src/test/java/taboola/ExpressionValidatorTest.java:43 | `c = a b` throws `InvalidExpression` and leaves the store untouched |
| Scenarios.RejectSubtractAssign | src/test/java/taboola/ExpressionValidatorTest.java:56 | `c -= d` throws `InvalidExpression`: `-=` is not an operator |
| Scenarios.RejectLoneParenthesis | src/test/java/taboola/ExpressionCalculatorTest.java:47-48 | a lone `)` or `(` throws `InvalidExpression` |
| Scenarios.CalculatorTestAssign | src/test/java/taboola/ExpressionCalculatorTest.java:58 | `x = 1` gives 1 and `{x=1}`; `a = 5` gives 5 and `{a=5}` |
| Scenarios.CalculatorTestSum | src/test/java/taboola/ExpressionCalculatorTest.java:59 | `y = 2 + 3` gives 5 and `{y=5}` |
| Scenarios.CalculatorTestGroup | src/test/java/taboola/ExpressionCalculatorTest.java:60 | `z = (2 + 3) * 2` gives 10 and `{z=10}` |
| Scenarios.CalculatorTestPostIncrement | src/test/java/taboola/ExpressionCalculatorTest.java:62 | `x = 1` then `w = x++ + 1` give 1 and 2 and leave `{x=2, w=2}` |
| Scenarios.CalculatorTestPreIncrement | src/test/java/taboola/ExpressionCalculatorTest.java:63 | `x = 1`, `w = 1`, `w += ++x + 1` give 1, 1 and 4 and leave `{x=2, w=4}` |
| Scenarios.CalculatorTestInvalid | src/test/java/taboola/ExpressionCalculatorTest.java:44-49 | `x = + 1`, `x = 5 + $`, `)` and `(` throw `InvalidExpression` |

## Left out

- Logging (`log.error` in the validator and in `VariableExpression`) is not modelled: it has no effect on results.
- The interactive front end `ExpressionCalculatorApplication`, and the Spring wiring (`@Component`, `@Autowired`), are not part of this model.
- The regular expressions of `ExpressionUtils` and of the character check are written out as predicates over characters, not as a regular-expression engine.
- Aliasing is not modelled as such. Every node in the source holds a reference to the calculator's one `HashMap`. `Eval` threads that map as a value, and `Calculator.Evaluate` updates the `variables` field in place. `Calculator.Evaluate` is proved to do the same as `Eval`.
- Java exceptions are results: `InvalidExpression`, `UndefinedVariableException` and the `ClassCastException` of the cast become `Err` values. So do `NumberFormatException` from `Integer.parseInt` on a literal above 2147483647, and the `NoSuchElementException`/`null` the builder could meet. For accepted input, the last two are proved unreachable.
- `null` as the expression is not modelled: a Dafny string is never null.
- Scenarios.CalculateAssignDigit: like the other `Scenarios` lemmas, it is stated for single-digit literals and single-letter names, not for every literal.
- Scenarios.CalculateChain: it is stated for single digits, so it covers `x = 9 - 2 - 3`, which binds 10, not 4; longer literals in a chain are not covered.
- Scenarios.CalculatorTestAssign: the test instances are stated for any lowercase names and any digit characters with the tests' values, rather than for the literal strings. The exceptions are `CalculatorTestInvalid` and `RejectLoneParenthesis`, which use the literal strings.
- ExpressionCalculator.Calculator.GetVariables: the source returns a fresh `HashMap` copy. A Dafny map is a value, so the copy is implicit.
