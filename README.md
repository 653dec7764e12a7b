# calcy: the calculator's expression state machine in Dafny

This project models the parts of calcy (a browser calculator) that are more than page wiring:

- **The `Calculator` object.** It holds the operand being typed (`currentOperand`), the running total (`previousOperand`), the pending operator (`operation`), the text of the whole chain (`fullExpression`) and a newest-first `history` of finished calculations.
- **Its transitions:** AC, DEL, digit and dot keys, operator keys, the internal fold `compute`, and `=`.
- **The three history operations.**
- **The choice of the secondary display line.**
- **Two integer features:** the parity check and the trial-division primality check.

## Files

- `text.dfy`, module `Text`: the JavaScript string operations the calculator relies on.
  - `trim` is `Trim`. It skips the ECMAScript white space and line terminator characters.
  - `slice(0, -k)` is `SliceEnd`, and `substring(0, length - 1)` is `DropLast`.
  - The test `!isNaN(parseFloat(s))`, that `parseFloat` yields a number, is `ParsesAsNumber`. It uses the prefix rule of `parseFloat`: after white space and an optional sign, the text must start with `Infinity`, with a digit, or with a dot followed by a digit.
- `engine.dfy`, module `Engine`: the state as a value, `Calc`, with one function per transition.
  - The functions carry contracts for what each transition promises.
  - The state invariant is `Invariant`: an operation is pending exactly when a previous operand is held, and then an expression is on show.
  - Every transition preserves the invariant.
- `calculator.dfy`, module `Calcy`: the class `Calculator`.
  - Its fields are the object's fields, and its methods assign them one at a time, in the order `script.js` does.
  - Each method is proved to leave exactly the state the matching `Engine` function gives.
  - Each method keeps the invariant.
- `properties.dfy`, module `Properties`: what the transitions promise across several keys.
  - The invariant holds for any sequence of keys.
  - Neither operand ever holds two dots, for any sequence of keys, provided every digit key delivers either a lone dot or text without a dot, and the arithmetic never produces a number with two dots.
  - Chaining is left to right.
  - `=` straight after an operator has its own case.
  - A second `=` behaves in a surprising way, which is kept.
  - AC is idempotent.
  - The history is newest first.
- `features.dfy`, module `Features`: `checkEvenOdd` and `checkPrime`.
  - `checkPrime` is a method with the source's loop.
  - Both are proved against the mathematical definitions of parity, primality and the smallest divisor.
  - The proof includes the fact that trial division may stop at the square root.

### How the source's values are represented

- **The arithmetic.** `compute` applies `parseFloat`, the operator, `toPrecision(12)` and `parseFloat` again. This is the calculator's constant `arith`: an arbitrary function from an operator and two operand texts to the (non-empty) text of the resulting number.
  - `compute` changes nothing in two cases, and both are modelled exactly. One is an operand that does not parse, the early return at `script.js:61`; the model decides it with `ParsesAsNumber`. The other is no pending operation, the `default` branch at `script.js:75-76`.
- **Numbers stored as text.** In JavaScript, `compute` stores a Number in `currentOperand`, and the model stores that number's text instead. The two behave alike at every later use:
  - Template literals, `toString()` and `parseFloat` turn the Number into its text (`script.js:20, 32, 40-44, 59-60, 131-133`).
  - The comparisons with `''` at `script.js:36, 48, 108, 129` do not convert the Number. A Number is never `''`, and neither is its text, which is never empty, so the outcome is the same.
  - `addToHistory` at `script.js:141` stores the Number itself as the record's result. The model stores its text, which is what the history list shows.
  - `includes('.')` at `script.js:31` would throw on a Number, but it never sees one. A Number stays in `currentOperand` only after `=`: either from `compute` called at `script.js:139`, or copied back from a folded running total at `script.js:115`. Both paths leave `=` in the expression, and `script.js:25-30` then resets the operand to `''` before line 31 runs. After an operator key, the computed value moves to `previousOperand`, to which `includes` is never applied.
- **Operators.** `operation` is `Option<Op>`. The symbol an operator is written with is `Symbol`.

## Model

| member | source | states |
|---|---|---|
| Engine.Initial | script.js:5-7 | the constructed state has nothing typed, an empty history and satisfies the invariant |
| Engine.Clear | script.js:12-17 | AC empties both operands, the pending operation and the expression from any state, keeps the history and establishes the invariant |
| Properties.ClearIsIdempotent | script.js:12-17 | AC twice is AC once, and it gives the initial state with the history kept |
| Engine.Delete | script.js:19-21 | DEL removes exactly the last character of the current operand (nothing when it is empty); the other fields and the history are unchanged; the invariant is kept |
| Engine.AppendNumber | script.js:23-33 | after a finished calculation (an `=` in the expression) the state restarts with the token as the whole operand; otherwise the token is appended, except that a dot is ignored when the operand already holds one; an operand with at most one dot keeps at most one when the token is a lone dot or holds no dot; the history is unchanged and the invariant is kept |
| Properties.SecondDotIgnored | script.js:31-32 | the keys `1 . . 2` type `1.2` |
| Properties.PressKeepsSingleDot | script.js:19-33 | one key press leaves both operands with at most one dot, given dot-only or dot-free key tokens and computed numbers with at most one dot |
| Properties.RunKeepsSingleDot | script.js:23-86 | over any sequence of keys neither operand holds two dots, under the same conditions |
| Engine.ChooseOperation | script.js:35-55 | with nothing typed the key is ignored; otherwise the current operand becomes empty, `op` becomes the pending operation, the previous operand becomes the folded `previous op current` when a step was pending and computable and the typed operand otherwise, and the operand and operator are added to the expression (which restarts after a finished calculation); the invariant is kept |
| Engine.Compute | script.js:57-86 | when either operand does not parse as a number, or no operation is pending, nothing changes; otherwise the current operand becomes the computed value and the previous operand and pending operation are cleared; the expression and history never change; the invariant is kept |
| Text.ParsesAsNumber | script.js:59-61 | `!isNaN(parseFloat(s))`: after ECMAScript white space and an optional sign, the text starts with `Infinity`, a digit, or a dot followed by a digit; text that parses has a character other than white space, so the empty operand and white space alone never parse |
| Text.LeadingDigitParses | script.js:59-61 | an operand that starts with a digit, or with a dot and a digit, is a number to `parseFloat` |
| Text.EmptyAndDotDoNotParse | script.js:59-61 | the empty operand and a lone dot are not numbers, so `compute` returns early on them |
| Properties.ChainedOperatorFolds | script.js:44-54 | an operator pressed while a computable step is pending folds that step into the running total and extends the expression |
| Properties.FirstStep | script.js:23-55 | `a op b` typed from a fresh chain leaves `b` current, `a` previous, `op` pending and `a op` shown |
| Properties.ChainTail | script.js:35-145 | from `a op1 b`, `op2 d =` folds `a op1 b` then applies `op2` to the total and `d`, and records the whole chain |
| Properties.ChainingFoldsLeftToRight | script.js:47-50 | `a op1 b op2 d =` computes `(a op1 b) op2 d` strictly left to right; the expression shows the whole chain with `=`, and one record holding the chain and its result is added |
| Engine.Finished | script.js:129-134 | the expression text `=` leaves in the normal case ends with ` =` |
| Engine.Evaluate | script.js:103-145 | with no pending operation and no expression nothing changes. With an operator waiting for its operand, the result is the running total, the expression becomes the trimmed text without its last character, trimmed again, followed by ` =`, and that text is recorded. In the normal case, the operand is added to the expression with ` =`. When the pending step can be computed, the result becomes the current operand and the previous operand and pending operation are cleared; when it cannot, all three are kept as they were. Exactly one record is added, whose text is the new expression without its final ` =`. Whenever `=` acts, the state is finished and the history grows by one. The invariant is kept |
| Properties.TrailingOperatorEquals | script.js:108-127 | `a op =` drops the trailing operator: the result is `a`, the expression is `a =` and the record is `a` with result `a` |
| Properties.EqualsRecordsShownExpression | script.js:129-141 | `=` after the second operand of a step records the expression as shown with the computed result |
| Properties.RepeatedEqualsAddsRecord | script.js:104-141 | `=` after a finished calculation passes the guard, the fold changes nothing, and a record holding the whole shown text is pushed |
| Properties.EqualsTwice | script.js:129-141 | `= =` after a step leaves two records: the shown text followed by ` = ` and the result, above the shown text |
| Properties.TwoEqualsTwoRecords | script.js:104-145 | `a op b = =` leaves the history `[a op b = v, a op b]`, both with result `v` |
| Engine.AddToHistory | script.js:147-149 | the new record goes to position 0, the list grows by one, the older records follow in order, and nothing else changes |
| Properties.HistoryIsNewestFirst | script.js:147-149 | adding records one after the other leaves them in reverse order in front of the old history |
| Engine.RemoveAt | script.js:153 | `splice(index, 1)` removes exactly one element: the one at a non-negative index, or, for a negative index, the one counted from the end (the first when the index reaches past the start); an index at or past the end removes nothing; the length drops by one exactly when something is removed |
| Engine.DeleteHistoryItem | script.js:152-154 | only the history changes, as `RemoveAt`; for an index in range the records before it stay and the records after it move up by one |
| Engine.ClearHistory | script.js:157-159 | the history becomes empty and nothing else changes |
| Engine.ExpressionLine | script.js:210-216 | the secondary line is the expression when there is one; it is empty exactly when there is neither an expression nor a pending operation; under the invariant it is always the expression |
| Properties.Press | script.js:327-365 | the button handlers, which it models by dispatch: a digit or dot key runs `appendNumber` with its token, an operator key `chooseOperation`, `=` `evaluate`, DEL `delete` and AC `clear`; its contract states that a key press leaves the history alone or puts exactly one record on top of the old records, which stay in order beneath it |
| Properties.RunKeepsInvariant | script.js:12-145 | from a state satisfying the invariant, every sequence of keys leads to a state satisfying it |
| Properties.ReachableLineIsExpression | script.js:210-216 | in every state reachable from a fresh calculator the secondary line is the expression itself |
| Calcy.Calculator.constructor | script.js:2-10 | a new calculator has nothing typed, an empty history and the given arithmetic |
| Calcy.Calculator.Clear | script.js:12-17 | the fields are left as `Engine.Clear` gives, and the invariant holds |
| Calcy.Calculator.Delete | script.js:19-21 | the fields are left as `Engine.Delete` gives; the invariant is kept |
| Calcy.Calculator.AppendNumber | script.js:23-33 | the fields are left as `Engine.AppendNumber` gives; the invariant is kept |
| Calcy.Calculator.ChooseOperation | script.js:35-55 | the fields are left as `Engine.ChooseOperation` gives; the invariant is kept |
| Calcy.Calculator.Compute | script.js:57-86 | the fields are left as `Engine.Compute` gives; the invariant is kept |
| Calcy.Calculator.Evaluate | script.js:103-145 | the fields are left as `Engine.Evaluate` gives; the invariant is kept |
| Calcy.Calculator.AddToHistory | script.js:147-149 | the fields are left as `Engine.AddToHistory` gives |
| Calcy.Calculator.DeleteHistoryItem | script.js:152-154 | the fields are left as `Engine.DeleteHistoryItem` gives |
| Calcy.Calculator.ClearHistory | script.js:157-159 | the fields are left as `Engine.ClearHistory` gives |
| Text.Trim | script.js:110-112 | `trim()` gives the slice of the text between its leading and trailing white space; everything cut off is white space, and the result neither starts nor ends with white space |
| Text.TrimKeepsBareText | script.js:110 | text with no white space at its ends is unchanged by `trim()` |
| Text.TrimDropsOneSpace | script.js:112 | `trim()` removes the single space the operator's removal leaves behind |
| Text.SliceEnd | script.js:137 | `slice(0, -k)` is the text without its last `k` characters, or empty when it is shorter |
| Text.DropLast | script.js:112 | `slice(0, -1)` and `substring(0, length - 1)` drop exactly the last character |
| Engine.Symbol | script.js:62-74 | each operator is written as one character that is neither white space nor `=` |
| Features.Remainder | script.js:501-504 | JavaScript's `%` for a positive divisor. It is the Euclidean remainder for a non-negative dividend. For a negative dividend it lies in `(-b, 0]` and differs from the dividend by a multiple of the divisor, so the sign follows the dividend. It is zero exactly when the divisor divides the dividend |
| Features.CheckEvenOdd | script.js:440-443 | the verdict is "not an integer" exactly for a non-integer, Even exactly for an integer that 2 divides, Odd exactly for one that 2 does not divide |
| Features.ParityMessage | script.js:441-442 | the message starts with the number's text and has more after it |
| Features.ParityMessageDetermines | script.js:441-442 | the three parity messages for one number all differ, so the message tells the verdict |
| Features.PrimeIffNoDivisorUpToRoot | script.js:503 | a number is prime exactly when it is at least 2 and nothing from 2 to its square root divides it |
| Features.TrialDivisionComplete | script.js:503-508 | once the candidate's square exceeds the number and nothing below the candidate divides it, the number is prime |
| Features.FirstDivisorFound | script.js:504-505 | a divisor no smaller candidate divides is the smallest divisor, and the number is not prime |
| Features.TrialStep | script.js:503 | for an odd number, stepping the candidate by 2 skips only an even candidate, which cannot divide it |
| Features.DecimalText | script.js:505 | `${i}` of a non-negative integer: a non-empty string of decimal digits with no leading zero (except for 0 itself) that denotes the integer |
| Features.PrimalityMessage | script.js:498-508 | for a reported divisor of at least 2, the message starts with the number's text and has more after it |
| Features.PrimalityMessageDetermines | script.js:498-508 | different verdicts for one number give different messages, and two divisor messages are equal only for equal divisors |
| Features.CheckPrime | script.js:497-509 | the verdict is "not an integer" exactly for a non-integer; "less than 2" exactly for an integer below 2; PRIME exactly for a prime integer; and a reported divisor is the smallest divisor above 1, with its square at most the number |

## Left out

- DOM rendering is not modelled. This covers `renderHistory`, the `innerText` and emoji updates of `updateDisplay`, and the rendering call each history operation makes. It is page output, not logic.
- The number formatting of the main display (`formatNumber`, `toLocaleString`) is not modelled. It is floating-point formatting.
- The button handlers are modelled by `Properties.Press`. Left out of them are the display refresh (`updateDisplay`), the click sound, the keyboard mapping onto the buttons, and the other listeners. Also left out are the audio functions, the theme kept in `localStorage` and the feature popup wiring. They are browser I/O.
- Square, cube, square root, cube root, the multiplication table and the percentage features are not modelled. They are floating-point arithmetic and formatting. The percentage zero-divisor guards are not modelled either.
- Engine.Compute: the value of a computation is the abstract `arith`, not IEEE-754 arithmetic with `toPrecision(12)` rounding. This includes division by zero, whose result (`Infinity` or `NaN`) depends on IEEE semantics.
- Text.ParsesAsNumber: it decides whether `parseFloat` yields a number, but not which number.
- Text.Trim: characters are Dafny characters, not UTF-16 code units. A white space character outside the Basic Multilingual Plane does not occur in the ECMAScript set, so this changes nothing for `trim`.
- Features.CheckPrime: the loop test `i <= Math.sqrt(n)` is written as `i * i <= n`. The two agree for every integer below 2^52; for larger numbers the floating-point square root is not modelled.
- Features.CheckPrime and Features.CheckEvenOdd: the input is a finite number, taken as a real. `Infinity` and `NaN`, which `Number.isInteger` rejects, are not modelled.
- Features.ParityMessage and Features.PrimalityMessage: the messages take the text of `n` as a parameter, because JavaScript's number-to-text conversion is not modelled.
- Engine.DeleteHistoryItem: this follows `Array.prototype.splice`. An index at or past the end removes nothing, but a negative index counts from the end, so `-1` removes the oldest record. This model states that, rather than "any out-of-range index does nothing".
