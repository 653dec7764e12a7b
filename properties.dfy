/**
  * What the transitions of Engine promise across several key presses: the
  * state invariant over any sequence of keys, left-to-right chaining, the
  * trailing-operator `=`, the decimal guard, idempotent clearing, newest
  * first history, and the repeated `=` after a finished calculation.
  */
module Properties {
  import opened Text
  import opened Engine

  /** One key of the calculator as the input handlers deliver it. */
  datatype Key = Number(token: string) | Operator(op: Op) | Equals | Backspace | AllClear

  /** The transition a key triggers. */
  function Press(c: Calc, k: Key, arith: Arith): (r: Calc)
    ensures r.history == c.history || (|r.history| == |c.history| + 1 && r.history[1..] == c.history)
  {
    match k
    case Number(t) => AppendNumber(c, t)
    case Operator(op) => ChooseOperation(c, op, arith)
    case Equals => Evaluate(c, arith)
    case Backspace => Delete(c)
    case AllClear => Clear(c)
  }

  /** The state after pressing `keys` in order. */
  function Run(c: Calc, keys: seq<Key>, arith: Arith): Calc
    decreases |keys|
  {
    if keys == [] then c else Run(Press(c, keys[0], arith), keys[1..], arith)
  }

  /** Whatever keys are pressed, an operation is pending exactly when a
      previous operand is held, and then an expression is on show. */
  lemma {:induction false} RunKeepsInvariant(c: Calc, keys: seq<Key>, arith: Arith)
    requires Invariant(c)
    ensures Invariant(Run(c, keys, arith))
    decreases |keys|
  {
    if keys != [] {
      var c1 := Press(c, keys[0], arith);
      assert Invariant(c1) by {
        match keys[0]
        case Number(t) =>
        case Operator(op) =>
        case Equals =>
        case Backspace =>
        case AllClear =>
      }
      RunKeepsInvariant(c1, keys[1..], arith);
    }
  }

  /** So the secondary display line of every reachable state is the
      expression itself: the `previous op` fallback is never shown. */
  lemma ReachableLineIsExpression(keys: seq<Key>, arith: Arith)
    ensures var c := Run(Initial(), keys, arith); ExpressionLine(c) == c.expression
  {
    RunKeepsInvariant(Initial(), keys, arith);
  }

  /** Neither operand ever holds two dots, as long as the digit keys only
      deliver a dot or dot-free text and no computed number has two dots. */
  lemma {:induction false} RunKeepsSingleDot(c: Calc, keys: seq<Key>, arith: Arith)
    requires Dots(c.current) <= 1 && Dots(c.previous) <= 1
    requires forall i :: 0 <= i < |keys| && keys[i].Number? ==>
      keys[i].token == "." || '.' !in keys[i].token
    requires forall op, a, b :: Dots(arith(op, a, b)) <= 1
    ensures var r := Run(c, keys, arith); Dots(r.current) <= 1 && Dots(r.previous) <= 1
    decreases |keys|
  {
    if keys != [] {
      var c1 := Press(c, keys[0], arith);
      PressKeepsSingleDot(c, keys[0], arith);
      forall i | 0 <= i < |keys[1..]| && keys[1..][i].Number?
        ensures keys[1..][i].token == "." || '.' !in keys[1..][i].token
      {
        assert keys[1..][i] == keys[i + 1];
      }
      RunKeepsSingleDot(c1, keys[1..], arith);
    }
  }

  /** One key press keeps both operands to at most one dot. */
  lemma PressKeepsSingleDot(c: Calc, k: Key, arith: Arith)
    requires Dots(c.current) <= 1 && Dots(c.previous) <= 1
    requires k.Number? ==> k.token == "." || '.' !in k.token
    requires forall op, a, b :: Dots(arith(op, a, b)) <= 1
    ensures var r := Press(c, k, arith); Dots(r.current) <= 1 && Dots(r.previous) <= 1
  {
    match k
    case Number(t) =>
    case Operator(op) =>
    case Equals =>
    case Backspace =>
      var s := c.current;
      if s != [] {
        assert s == DropLast(s) + [s[|s| - 1]];
        assert multiset(s) == multiset(DropLast(s)) + multiset([s[|s| - 1]]);
      }
    case AllClear =>
  }

  /** AC from any state gives the cleared state, and twice is once. */
  lemma ClearIsIdempotent(c: Calc)
    ensures Clear(Clear(c)) == Clear(c) == Initial().(history := c.history)
  {
  }

  /** An operator key that folds the pending step into the running total. */
  lemma ChainedOperatorFolds(c: Calc, op: Op, arith: Arith)
    requires c.current != "" && CanCompute(c)
    requires '=' !in c.expression && c.expression != ""
    ensures ChooseOperation(c, op, arith) ==
      Calc("", arith(c.operation.value, c.previous, c.current), Some(op),
           c.expression + " " + c.current + " " + Symbol(op), c.history)
  {
    EmptyAndDotDoNotParse();
  }

  /** `=` after the second operand of a step whose operator is on show:
      the result is recorded beside the expression as shown. */
  lemma EqualsRecordsShownExpression(c: Calc, arith: Arith)
    requires c.current != "" && c.expression != "" && CanCompute(c)
    ensures var shown := c.expression + " " + c.current;
      var v := arith(c.operation.value, c.previous, c.current);
      Evaluate(c, arith) == Calc(v, "", None, shown + " =", [Record(shown, v)] + c.history)
  {
    var shown := c.expression + " " + c.current;
    assert SliceEnd(shown + " =", 2) == shown;
  }

  /** `a op b` typed into a fresh chain. */
  lemma FirstStep(h: seq<Record>, a: string, op: Op, b: string, arith: Arith)
    requires a != "" && '=' !in a
    ensures AppendNumber(ChooseOperation(AppendNumber(Initial().(history := h), a), op, arith), b) ==
      Calc(b, a, Some(op), a + " " + Symbol(op), h)
  {
    var s1 := AppendNumber(Initial().(history := h), a);
    assert s1 == Calc(a, "", None, "", h);
    var s2 := ChooseOperation(s1, op, arith);
    assert s2 == Calc("", a, Some(op), a + " " + Symbol(op), h);
    assert '=' !in s2.expression;
  }

  /** `op d =` after `c`, whose pending step can be folded: `op` folds it,
      `=` applies `op` to the running total and `d`. */
  lemma ChainTail(c: Calc, op: Op, d: string, arith: Arith)
    requires c.current != "" && CanCompute(c)
    requires '=' !in c.expression && c.expression != "" && '=' !in c.current
    requires ParsesAsNumber(d)
    requires ParsesAsNumber(arith(c.operation.value, c.previous, c.current))
    ensures
      var total := arith(c.operation.value, c.previous, c.current);
      var shown := c.expression + " " + c.current + " " + Symbol(op) + " " + d;
      Evaluate(AppendNumber(ChooseOperation(c, op, arith), d), arith) ==
      Calc(arith(op, total, d), "", None, shown + " =", [Record(shown, arith(op, total, d))] + c.history)
  {
    EmptyAndDotDoNotParse();
    var total := arith(c.operation.value, c.previous, c.current);
    var e := c.expression + " " + c.current + " " + Symbol(op);
    var s4 := Calc("", total, Some(op), e, c.history);
    ChainedOperatorFolds(c, op, arith);
    assert ChooseOperation(c, op, arith) == s4;
    assert '=' !in e;
    var s5 := Calc(d, total, Some(op), e, c.history);
    assert AppendNumber(s4, d) == s5;
    assert CanCompute(s5);
    EqualsRecordsShownExpression(s5, arith);
  }

  /** `a op1 b op2 d =`: the second operator folds `a op1 b` first, `=`
      then applies `op2` to that running total and `d`, and the record
      holds the whole chain. */
  lemma ChainingFoldsLeftToRight(h: seq<Record>, a: string, op1: Op, b: string, op2: Op, d: string, arith: Arith)
    requires '=' !in a && '=' !in b
    requires ParsesAsNumber(a) && ParsesAsNumber(b) && ParsesAsNumber(d)
    requires ParsesAsNumber(arith(op1, a, b))
    ensures var r := Evaluate(AppendNumber(ChooseOperation(AppendNumber(ChooseOperation(
                       AppendNumber(Initial().(history := h), a), op1, arith), b), op2, arith), d), arith);
      var shown := a + " " + Symbol(op1) + " " + b + " " + Symbol(op2) + " " + d;
      r.current == arith(op2, arith(op1, a, b), d) &&
      r.previous == "" && r.operation == None &&
      r.expression == shown + " =" &&
      r.history == [Record(shown, r.current)] + h
  {
    EmptyAndDotDoNotParse();
    FirstStep(h, a, op1, b, arith);
    var s3 := Calc(b, a, Some(op1), a + " " + Symbol(op1), h);
    assert AppendNumber(ChooseOperation(AppendNumber(Initial().(history := h), a), op1, arith), b) == s3;
    assert '=' !in s3.expression && CanCompute(s3);
    ChainTail(s3, op2, d, arith);
  }

  /** `a op =`: the trailing operator is dropped and the running total,
      `a` itself, is the result. */
  lemma TrailingOperatorEquals(h: seq<Record>, a: string, op: Op, arith: Arith)
    requires a != "" && '=' !in a
    requires !IsWhitespace(a[0]) && !IsWhitespace(a[|a| - 1])
    ensures Evaluate(ChooseOperation(AppendNumber(Initial().(history := h), a), op, arith), arith) ==
      Calc(a, "", None, a + " =", [Record(a, a)] + h)
  {
    var e := a + " " + Symbol(op);
    var s1 := AppendNumber(Initial().(history := h), a);
    assert s1 == Calc(a, "", None, "", h);
    assert ChooseOperation(s1, op, arith) == Calc("", a, Some(op), e, h);
    TrimKeepsBareText(e);
    assert DropLast(e) == a + " ";
    TrimDropsOneSpace(a);
  }

  /** `1 . . 2` types `1.2`: the second dot is ignored. */
  lemma SecondDotIgnored(h: seq<Record>)
    ensures AppendNumber(AppendNumber(AppendNumber(AppendNumber(
      Initial().(history := h), "1"), "."), "."), "2").current == "1.2"
  {
    var s2 := AppendNumber(AppendNumber(Initial().(history := h), "1"), ".");
    assert s2 == Calc("1.", "", None, "", h);
    assert '.' in s2.current;
  }

  /** `=` again after a finished calculation: the run passes the guard
      because an expression is on show, the fold finds no previous operand
      and changes nothing, and a second record holding the whole shown text
      is pushed. */
  lemma RepeatedEqualsAddsRecord(c: Calc, arith: Arith)
    requires c.current != "" && c.previous == "" && c.operation.None? && c.expression != ""
    ensures Evaluate(c, arith) ==
      c.(expression := c.expression + " " + c.current + " =",
         history := [Record(c.expression + " " + c.current, c.current)] + c.history)
  {
    EmptyAndDotDoNotParse();
    var e := c.expression + " " + c.current + " =";
    assert SliceEnd(e, 2) == c.expression + " " + c.current;
  }

  /** `= =` after the second operand of a step: the second `=` records the
      first record's text followed by ` = ` and the result. */
  lemma EqualsTwice(c: Calc, arith: Arith)
    requires c.current != "" && c.expression != "" && CanCompute(c)
    ensures var shown := c.expression + " " + c.current;
      var v := arith(c.operation.value, c.previous, c.current);
      Evaluate(Evaluate(c, arith), arith).history == [Record(shown + " = " + v, v), Record(shown, v)] + c.history
  {
    var shown := c.expression + " " + c.current;
    var v := arith(c.operation.value, c.previous, c.current);
    var s4 := Calc(v, "", None, shown + " =", [Record(shown, v)] + c.history);
    EqualsRecordsShownExpression(c, arith);
    assert Evaluate(c, arith) == s4;
    RepeatedEqualsAddsRecord(s4, arith);
    ShownAfterEquals(shown, v, c.history);
  }

  /** The second record's text is the first's followed by ` = ` and the
      result, and it lands above the first. A separate lemma so that these
      sequence facts do not share a proof with the two `Evaluate` steps. */
  lemma ShownAfterEquals(shown: string, v: string, h: seq<Record>)
    ensures (shown + " =") + " " + v == shown + " = " + v
    ensures [Record((shown + " =") + " " + v, v)] + ([Record(shown, v)] + h) ==
      [Record(shown + " = " + v, v), Record(shown, v)] + h
  {
  }

  /** `a op b = =` where `a op b` comes to `v`: the history holds
      `a op b = v` above `a op b`, both with result `v`. */
  lemma TwoEqualsTwoRecords(a: string, op: Op, b: string, v: Numeral, arith: Arith)
    requires '=' !in a
    requires ParsesAsNumber(a) && ParsesAsNumber(b) && arith(op, a, b) == v
    ensures
      var shown := a + " " + Symbol(op) + " " + b;
      Evaluate(Evaluate(AppendNumber(ChooseOperation(AppendNumber(Initial(), a), op, arith), b), arith), arith).history ==
      [Record(shown + " = " + v, v), Record(shown, v)]
  {
    EmptyAndDotDoNotParse();
    FirstStep([], a, op, b, arith);
    EqualsTwice(Calc(b, a, Some(op), a + " " + Symbol(op), []), arith);
  }

  /** `s` in reverse order. */
  function Reversed<T>(s: seq<T>): (r: seq<T>)
    ensures |r| == |s|
  {
    if s == [] then [] else Reversed(s[1..]) + [s[0]]
  }

  /** Adding the records `rs` one after the other. */
  function AddAll(c: Calc, rs: seq<Record>): Calc
    decreases |rs|
  {
    if rs == [] then c else AddAll(AddToHistory(c, rs[0].expression, rs[0].result), rs[1..])
  }

  /** After records r1 .. rN are added in that order, the history lists
      rN .. r1 above what it held before, and nothing else changes. */
  lemma {:induction false} HistoryIsNewestFirst(c: Calc, rs: seq<Record>)
    ensures AddAll(c, rs) == c.(history := Reversed(rs) + c.history)
    decreases |rs|
  {
    if rs != [] {
      var c1 := AddToHistory(c, rs[0].expression, rs[0].result);
      HistoryIsNewestFirst(c1, rs[1..]);
      assert Reversed(rs[1..]) + ([rs[0]] + c.history) == (Reversed(rs[1..]) + [rs[0]]) + c.history;
    }
  }
}
