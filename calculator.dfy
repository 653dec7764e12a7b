/**
  * The `Calculator` object: four fields that the keys change in place and
  * the history list it keeps. Every method changes the fields the way the
  * object does, one assignment at a time, and promises that the state it
  * leaves is the one the matching function of Engine gives; the invariant
  * of Engine is kept by every method.
  */
module Calcy {
  import opened Text
  import opened Engine

  class Calculator {
    /** The floating-point arithmetic `compute()` performs. */
    const arith: Arith

    var currentOperand: string
    var previousOperand: string
    var operation: Option<Op>
    var fullExpression: string
    var history: seq<Record>

    /** The object's fields as a value. */
    function Model(): (c: Calc)
      reads this
    {
      Calc(currentOperand, previousOperand, operation, fullExpression, history)
    }

    ghost predicate Valid()
      reads this
    {
      Invariant(Model())
    }

    /** A calculator with an empty history and nothing typed. */
    constructor (arith: Arith)
      ensures this.arith == arith && Model() == Initial() && Valid()
    {
      this.arith := arith;
      history := [];
      fullExpression := "";
      currentOperand := "";
      previousOperand := "";
      operation := None;
      new;
      Clear();
    }

    method Clear()
      modifies this
      ensures Model() == Engine.Clear(old(Model())) && Valid()
    {
      currentOperand := "";
      previousOperand := "";
      operation := None;
      fullExpression := "";
    }

    method Delete()
      modifies this
      ensures Model() == Engine.Delete(old(Model()))
      ensures old(Valid()) ==> Valid()
    {
      currentOperand := SliceEnd(currentOperand, 1);
    }

    method AppendNumber(number: string)
      modifies this
      ensures Model() == Engine.AppendNumber(old(Model()), number)
      ensures old(Valid()) ==> Valid()
    {
      if '=' in fullExpression {
        currentOperand := "";
        fullExpression := "";
        operation := None;
        previousOperand := "";
      }
      if number == "." && '.' in currentOperand {
        return;
      }
      currentOperand := currentOperand + number;
    }

    method ChooseOperation(op: Op)
      modifies this
      ensures Model() == Engine.ChooseOperation(old(Model()), op, arith)
      ensures old(Valid()) ==> Valid()
    {
      if currentOperand == "" {
        return;
      }
      if '=' in fullExpression {
        fullExpression := currentOperand + " " + Symbol(op);
      } else if fullExpression == "" {
        fullExpression := currentOperand + " " + Symbol(op);
      } else {
        fullExpression := fullExpression + " " + currentOperand + " " + Symbol(op);
      }
      if previousOperand != "" {
        Compute();
      }
      operation := Some(op);
      previousOperand := currentOperand;
      currentOperand := "";
    }

    method Compute()
      modifies this
      ensures Model() == Engine.Compute(old(Model()), arith)
      ensures old(Valid()) ==> Valid()
    {
      var prev := ParsesAsNumber(previousOperand);
      var current := ParsesAsNumber(currentOperand);
      if !prev || !current {
        return;
      }
      var computation;
      match operation {
        case None => return;
        case Some(op) => computation := arith(op, previousOperand, currentOperand);
      }
      currentOperand := computation;
      operation := None;
      previousOperand := "";
    }

    method Evaluate()
      modifies this
      ensures Model() == Engine.Evaluate(old(Model()), arith)
      ensures old(Valid()) ==> Valid()
    {
      if operation == None && fullExpression == "" {
        return;
      }
      if currentOperand == "" && operation != None {
        var tempExpr := Trim(fullExpression);
        fullExpression := Trim(SliceEnd(tempExpr, 1));
        currentOperand := previousOperand;
        AddToHistory(fullExpression, currentOperand);
        fullExpression := fullExpression + " =";
        operation := None;
        previousOperand := "";
        return;
      }
      if currentOperand != "" {
        if fullExpression == "" {
          fullExpression := previousOperand + " " + Symbol(operation.value) + " " + currentOperand + " =";
        } else {
          fullExpression := fullExpression + " " + currentOperand + " =";
        }
        var historyExpression := SliceEnd(fullExpression, 2);
        Compute();
        AddToHistory(historyExpression, currentOperand);
      }
    }

    method AddToHistory(expression: string, result: string)
      modifies this
      ensures Model() == Engine.AddToHistory(old(Model()), expression, result)
      ensures old(Valid()) ==> Valid()
    {
      history := [Record(expression, result)] + history;
    }

    method DeleteHistoryItem(index: int)
      modifies this
      ensures Model() == Engine.DeleteHistoryItem(old(Model()), index)
      ensures old(Valid()) ==> Valid()
    {
      var start := SpliceStart(|history|, index);
      if start < |history| {
        history := history[..start] + history[start + 1..];
      }
    }

    method ClearHistory()
      modifies this
      ensures Model() == Engine.ClearHistory(old(Model()))
      ensures old(Valid()) ==> Valid()
    {
      history := [];
    }
  }
}
