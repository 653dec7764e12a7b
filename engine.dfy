/**
  * The calculator's expression state machine as values: the four fields of
  * a `Calculator` together with its history, and one function per
  * transition giving the state that transition leaves behind. The class in
  * calculator.dfy updates its fields step by step and is proved to agree
  * with these functions; the lemmas here state what the transitions promise.
  */
module Engine {
  import opened Text

  datatype Option<T> = None | Some(value: T)

  /** The four operator buttons. */
  datatype Op = Add | Subtract | Multiply | Divide

  /** The text an operator is shown (and passed around) as. */
  function Symbol(op: Op): (r: string)
    ensures |r| == 1 && !IsWhitespace(r[0]) && r[0] != '='
  {
    match op
    case Add => "+"
    case Subtract => "-"
    case Multiply => "×"
    case Divide => "÷"
  }

  /** The text of a JavaScript number: never empty. */
  type Numeral = s: string | |s| > 0 witness "0"

  /** Floating-point arithmetic as the calculator performs it:
      `parseFloat` both operands, apply the operator, round with
      `toPrecision(12)`, `parseFloat` again and take the number's text. It is
      applied only to operands that both parse as numbers. */
  type Arith = (Op, string, string) -> Numeral

  /** One entry of the history list. */
  datatype Record = Record(expression: string, result: string)

  /** The calculator state: `currentOperand`, `previousOperand`,
      `operation`, `fullExpression` and `history`. */
  datatype Calc = Calc(current: string, previous: string, operation: Option<Op>,
                       expression: string, history: seq<Record>)

  /** The state invariant: an operation is pending exactly when a previous
      operand is held, and only while an expression is being shown. */
  ghost predicate Invariant(c: Calc)
  {
    (c.operation.Some? <==> c.previous != "") &&
    (c.operation.Some? ==> c.expression != "")
  }

  /** A finished calculation is marked by an `=` in the expression. */
  predicate Finalized(c: Calc)
  {
    '=' in c.expression
  }

  /** The state of a freshly constructed calculator. */
  function Initial(): (r: Calc)
    ensures Invariant(r) && !Finalized(r) && r.history == []
  {
    Calc("", "", None, "", [])
  }

  /** `clear()`: the AC key. It resets the four fields and keeps the history. */
  function Clear(c: Calc): (r: Calc)
    ensures r.current == "" && r.previous == "" && r.operation == None && r.expression == ""
    ensures r.history == c.history
    ensures Invariant(r)
  {
    Initial().(history := c.history)
  }

  /** `delete()`: the DEL key. */
  function Delete(c: Calc): (r: Calc)
    ensures c.current == [] ==> r == c
    ensures c.current != [] ==> r.current + [c.current[|c.current| - 1]] == c.current
    ensures r.previous == c.previous && r.operation == c.operation
    ensures r.expression == c.expression && r.history == c.history
    ensures Invariant(c) ==> Invariant(r)
  {
    c.(current := DropLast(c.current))
  }

  /** The number of dots in an operand. */
  function Dots(s: string): nat
  {
    multiset(s)['.']
  }

  /** `appendNumber(number)`: a digit or dot key. After a finished
      calculation the next key starts a fresh chain; a second dot is
      ignored. */
  function AppendNumber(c: Calc, number: string): (r: Calc)
    ensures Finalized(c) ==> r == Calc(number, "", None, "", c.history)
    ensures !Finalized(c) ==>
      r == c.(current := if number == "." && '.' in c.current then c.current else c.current + number)
    ensures Dots(c.current) <= 1 && (number == "." || '.' !in number) ==> Dots(r.current) <= 1
    ensures r.history == c.history
    ensures Invariant(c) ==> Invariant(r)
  {
    var c1 := if '=' in c.expression then Calc("", "", None, "", c.history) else c;
    if number == "." && '.' in c1.current then c1
    else c1.(current := c1.current + number)
  }

  /** Whether `compute()` finds two numbers and an operation to apply. */
  predicate CanCompute(c: Calc)
  {
    ParsesAsNumber(c.previous) && ParsesAsNumber(c.current) && c.operation.Some?
  }

  /** `compute()`: apply the pending operation to the two operands. When
      either operand is not a number, or nothing is pending, nothing
      changes. */
  function Compute(c: Calc, arith: Arith): (r: Calc)
    ensures !CanCompute(c) ==> r == c
    ensures CanCompute(c) ==>
      r.current == arith(c.operation.value, c.previous, c.current) &&
      r.previous == "" && r.operation == None
    ensures r.expression == c.expression && r.history == c.history
    ensures Invariant(c) ==> Invariant(r)
  {
    if !ParsesAsNumber(c.previous) || !ParsesAsNumber(c.current) then c
    else
      match c.operation
      case None => c
      case Some(op) => c.(current := arith(op, c.previous, c.current), operation := None, previous := "")
  }

  /** The operand a chain continues from when operator `op` is pressed:
      the folded value `previous pending current` when a fold takes place,
      the current operand otherwise. */
  function Folded(c: Calc, arith: Arith): (r: string)
  {
    if c.previous != "" && CanCompute(c) then arith(c.operation.value, c.previous, c.current)
    else c.current
  }

  /** `chooseOperation(op)`: an operator key. With nothing typed it is
      ignored; otherwise the operand and operator are added to the
      expression, a pending operation is folded in first (strict left to
      right), and `op` becomes the pending operation. */
  function ChooseOperation(c: Calc, op: Op, arith: Arith): (r: Calc)
    ensures c.current == "" ==> r == c
    ensures c.current != "" ==>
      r.current == "" && r.operation == Some(op) && r.previous == Folded(c, arith) &&
      r.expression == if Finalized(c) || c.expression == "" then c.current + " " + Symbol(op)
                      else c.expression + " " + c.current + " " + Symbol(op)
    ensures r.history == c.history
    ensures Invariant(c) ==> Invariant(r)
  {
    if c.current == "" then c
    else
      var c1 := c.(expression := if '=' in c.expression || c.expression == "" then c.current + " " + Symbol(op)
                                 else c.expression + " " + c.current + " " + Symbol(op));
      var c2 := if c1.previous != "" then Compute(c1, arith) else c1;
      c2.(operation := Some(op), previous := c2.current, current := "")
  }

  /** Whether `=` does anything at all. */
  predicate EvaluateActs(c: Calc)
  {
    !(c.operation.None? && c.expression == "") && (c.current != "" || c.operation.Some?)
  }

  /** The expression text `=` leaves behind in the normal case. */
  function Finished(c: Calc): (r: string)
    requires c.current != "" && (c.expression != "" || c.operation.Some?)
    ensures |r| >= 2 && r[|r| - 2..] == " ="
  {
    if c.expression == "" then c.previous + " " + Symbol(c.operation.value) + " " + c.current + " ="
    else c.expression + " " + c.current + " ="
  }

  /** `evaluate()`: the `=` key.
      With an operator still waiting for its operand, the operator is
      dropped from the expression and the running total becomes the result.
      Otherwise the operand is added to the expression, the pending
      operation is applied and the calculation is recorded; the expression
      stays on show until the next digit. */
  function Evaluate(c: Calc, arith: Arith): (r: Calc)
    ensures !EvaluateActs(c) ==> r == c
    ensures EvaluateActs(c) ==> Finalized(r) && |r.history| == |c.history| + 1 && r.history[1..] == c.history
    ensures c.current == "" && c.operation.Some? ==>
      r.current == c.previous && r.previous == "" && r.operation == None &&
      r.expression == Trim(DropLast(Trim(c.expression))) + " =" &&
      r.history == [Record(Trim(DropLast(Trim(c.expression))), c.previous)] + c.history
    ensures c.current != "" && EvaluateActs(c) ==>
      r.expression == Finished(c) &&
      r.history == [Record(r.expression[..|r.expression| - 2], r.current)] + c.history &&
      r.expression == r.history[0].expression + " =" &&
      r.current == (if CanCompute(c) then arith(c.operation.value, c.previous, c.current) else c.current) &&
      r.previous == (if CanCompute(c) then "" else c.previous) &&
      r.operation == (if CanCompute(c) then None else c.operation)
    ensures Invariant(c) ==> Invariant(r)
  {
    if c.operation.None? && c.expression == "" then c
    else if c.current == "" && c.operation.Some? then
      var e := Trim(DropLast(Trim(c.expression)));
      Calc(c.previous, "", None, e + " =", [Record(e, c.previous)] + c.history)
    else if c.current != "" then
      var text := Finished(c);
      var c1 := Compute(c.(expression := text), arith);
      c1.(history := [Record(SliceEnd(text, 2), c1.current)] + c1.history)
    else c
  }

  /** `addToHistory(expression, result)`: the newest record goes first. */
  function AddToHistory(c: Calc, expression: string, result: string): (r: Calc)
    ensures |r.history| == |c.history| + 1
    ensures r.history[0] == Record(expression, result) && r.history[1..] == c.history
    ensures r == c.(history := r.history)
  {
    c.(history := [Record(expression, result)] + c.history)
  }

  /** Where `splice(index, 1)` starts: a negative index counts from the end
      and is clamped to 0; an index past the end stays past it. */
  function SpliceStart(len: nat, index: int): (k: nat)
    ensures 0 <= index ==> k == index
    ensures -(len as int) <= index < 0 ==> k == len + index
    ensures index < -(len as int) ==> k == 0
  {
    if index >= 0 then index else if len + index < 0 then 0 else len + index
  }

  /** `history.splice(index, 1)`: the one record at `index` leaves the list. */
  function RemoveAt(h: seq<Record>, index: int): (r: seq<Record>)
    ensures 0 <= index < |h| ==> r == h[..index] + h[index + 1..]
    ensures index >= |h| ==> r == h
    ensures -|h| <= index < 0 ==> r == h[..|h| + index] + h[|h| + index + 1..]
    ensures index < -|h| && h != [] ==> r == h[1..]
    ensures |r| == if h != [] && index < |h| then |h| - 1 else |h|
  {
    var k := SpliceStart(|h|, index);
    if k < |h| then h[..k] + h[k + 1..] else h
  }

  /** `deleteHistoryItem(index)`. */
  function DeleteHistoryItem(c: Calc, index: int): (r: Calc)
    ensures r == c.(history := RemoveAt(c.history, index))
    ensures 0 <= index < |c.history| ==>
      |r.history| + 1 == |c.history| &&
      (forall j :: 0 <= j < index ==> r.history[j] == c.history[j]) &&
      (forall j :: index <= j < |r.history| ==> r.history[j] == c.history[j + 1])
  {
    c.(history := RemoveAt(c.history, index))
  }

  /** `clearHistory()`. */
  function ClearHistory(c: Calc): (r: Calc)
    ensures r.history == [] && r == c.(history := [])
  {
    c.(history := [])
  }

  /** The secondary display line chosen by `updateDisplay()`. */
  function ExpressionLine(c: Calc): (r: string)
    ensures c.expression != "" ==> r == c.expression
    ensures r == "" <==> c.expression == "" && c.operation.None?
    ensures Invariant(c) ==> r == c.expression
  {
    if c.expression != "" then c.expression
    else if c.operation.Some? then c.previous + " " + Symbol(c.operation.value)
    else ""
  }
}
