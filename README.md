# Stack calculator: a Dafny model

This project models a small stack-based expression calculator written in C. It covers two variants of the same three operations.

- **`expressao.h`** (the current variant) keeps its state in a `struct Calculadora`. The struct holds three array stacks of capacity 256: operators (`char`), values (`float`) and fragments (`char *`). On these stacks the variant builds:
  - `converter_infixo_para_posfixo`: a character scanner plus the shunting-yard algorithm. An "expecting an operand" flag turns a leading `-` into a signed number. Functions become one-letter markers `R S C T L`. `^` groups to the right; every other operator groups to the left.
  - `calcular_valor_posfixo`: evaluates postfix text and returns a `CalcStatus`.
  - `converter_posfixo_para_infixo`: rebuilds a fully parenthesised infix text from postfix text.
- **`expressao.c`** (the older variant) has the same operations over process-wide stacks: `getFormaPosFixa_Internal`, `getValor` and `getFormaInFixa`. It differs in several ways:
  - every operator groups to the left;
  - there is no unary minus;
  - a push on a full stack is dropped silently;
  - a malformed postfix text gives `""`;
  - its postfix writer mixes `strcat` with an index `k`.

## How the model is built

- **Modules.**
  - `Wrappers`: `Option`.
  - `CType`: the `<ctype.h>` tests.
  - `Symbols`: `ehOperador`, `ehFuncao`, `precedencia`, the markers and `adicionar_operador_a_saida`.
  - `Text`: the blank-separated token streams that `strtok(copy, " ")` splits.
  - `Arith`: `realizaOperacao`, `realizaFuncao`, `fmod` and `atof`.
  - `Stacks`: a 256-entry array stack class with `top == -1` when empty.
  - `Postfix` and `Infix`: the `expressao.h` operations as functions over sequences.
  - `Calculadora`: the `Calculadora` class, whose methods run the C loops over the array stacks. Each method is proved equal to the functions above.
  - `Trees`: expression trees, used to tie the three operations together.
  - `Minimal`: the same trees written with only the parentheses that precedence and grouping need, to show how the converter orders operators on such text.
  - `Scenarios`: the cases of the test driver `main.c`.
  - `Legacy`: `expressao.c`, with its functions and a `Globals` class holding the three static stacks.
- **Values are exact reals.** The math library (`pow`, `sqrt`, `log10`, and `sin`/`cos`/`tan` in degrees) is a parameter `m: Libm` of function-typed fields. A `pow` result of `None` stands for NAN. `fmod` is defined exactly, with truncation toward zero. `atof` reads an optional minus sign followed by the longest prefix of the form digits [ '.' digits ] [ ('e' | 'E') [ '+' | '-' ] digits ].
- **The NAN sentinel is replaced.** `desempilhaFloat` signals an empty stack with NAN; the model checks for emptiness explicitly (`Option`).
- **Text.** A C string is the `seq<char>` of its characters before the terminator. Postfix input is split into tokens as `strtok` splits it: on blanks, with empty pieces dropped.
- **The postfix writer of `expressao.c`** is modelled in two parts:
  - The conversion records its writes in order: `Appended(t)` for a `strcat`, and `AtCursor(op)` for `posFixa[k++] = op; posFixa[k++] = ' '`.
  - `Render` replays those writes on a buffer with an index `k`, as the C code does. `PosFixa` is the text the function returns. `PosFixaIntended` joins every written token with blanks, which is what the function was evidently meant to return (see Findings).

## Model

| member | source | states |
|---|---|---|
| Symbols.Precedence | expressao.h:73-81 | every precedence is at most 4; it is 4 exactly for a function marker and from 1 to 3 exactly for one of the six operators, so `(` and any other character rank below every operator |
| Symbols.PrecedenceLevels | expressao.c:149-156 | the table is ordered: functions above `^`, `^` above `* / %`, `* / %` above `+ -`, and `(` at 0 |
| Symbols.MarkerRoundTrip | expressao.h:179-184 | the marker a function name is pushed as is written back as the same name, and a marker comes back as the same marker |
| Symbols.EmitText | expressao.h:82-91 | a popped marker is written as its function name; any other entry is written as itself; the token contains no blank |
| Arith.Fmod | expressao.h:98 | the remainder is smaller than the divisor in magnitude and has the sign of the dividend (or is 0) |
| Arith.TanPoleOddRightAngles | expressao.h:109-110 | the tangent guard `fmod(x,180) == ±90` rejects exactly the angles 90 + k·180 |
| Arith.Operate | expressao.h:92-102 | computes `left op right` with `right` the operand popped first; NAN exactly for an unknown operator, a zero divisor of `/` or `%`, or an undefined power; `expressao.c` lines 159-180 do the same |
| Arith.ApplyFunction | expressao.h:103-114 | NAN exactly for an unknown name, the root of a negative value, the logarithm of a non-positive value, or a tangent pole; `expressao.c` lines 183-209 do the same |
| Arith.Atof | expressao.h:297 | a token without a leading '-' is read as a non-negative value, and one with a leading '-' as a non-positive value |
| Arith.AtofWhole | expressao.h:297 | a token of digits is read as the decimal number it writes |
| Arith.AtofExponent | expressao.h:297 | digits, `e` and digits are read as the first number scaled by ten to the power of the second (`ScaleBy` states that this is the product) |
| Arith.AtofThousand | expressao.h:297 | `atof("1e3")` is 1000 |
| Text.Tokens | expressao.h:294 | every token `strtok` returns is non-empty and contains no blank |
| Text.TokensJoin | expressao.h:243 | splitting blank-joined words gives back exactly those words, in order |
| Text.DropLastSpaced | expressao.h:232 | cutting the final blank off a buffer of "token " pieces leaves the tokens joined by single blanks |
| Stacks.Stack.constructor | expressao.h:119-127 | a new stack is empty |
| Stacks.Stack.Push | expressao.h:34-38 | a push is refused, with the stack unchanged, exactly when 256 entries are held; otherwise the entry goes on top; `expressao.c` lines 19-25 keep the same bound, their refusal only printing a message |
| Stacks.Stack.Pop | expressao.h:39 | pop on an empty stack gives the sentinel and changes nothing; otherwise it gives and removes the top entry; `expressao.c` lines 28-35 do the same |
| Stacks.Stack.Peek | expressao.h:40 | the top entry, or the sentinel exactly when the stack is empty |
| Stacks.Stack.IsEmpty | expressao.h:41 | true exactly when the stack holds no entry |
| Stacks.Stack.Clear | expressao.h:33 | the stack is left empty |
| Stacks.Stack.Drain | expressao.h:52-56 | `limparPilhaString` pops entry after entry until the stack is empty; `expressao.c` lines 126-132 do the same |
| Postfix.KindOf | expressao.h:296-312 | a token is a number exactly when it starts with a digit or '.', or is '-' followed by more; an operator exactly when, not being a number, it is one operator character; a function exactly when it is a function name |
| Postfix.EvalFrom | expressao.h:294-321 | every failure is a syntax, math or memory error, and a success leaves the value stack empty |
| Postfix.EvalNumber | expressao.h:296-297 | (one-pass unfolding, a stepping stone for the lemmas below) a number is pushed, or the evaluation ends with a memory error on a full stack |
| Postfix.EvalOperator | expressao.h:298-304 | (one-pass unfolding, a stepping stone for the lemmas below) an operator pops its right operand, then its left one, and pushes the result; a NAN result is a math error |
| Postfix.EvalFunction | expressao.h:305-310 | (one-pass unfolding, a stepping stone for the lemmas below) a function pops its argument and pushes the result; a NAN result is a math error |
| Postfix.EvalShort | expressao.h:299-307 | (one-pass unfolding, a stepping stone for the lemmas below) an operator with fewer than two operands, or a function with none, is a syntax error |
| Postfix.RebuildNumber | expressao.h:245-248 | (one-pass unfolding, a stepping stone for the lemmas below) a number is pushed as a fragment; on a full stack the result is NULL |
| Postfix.RebuildOperator | expressao.h:249-262 | (one-pass unfolding, a stepping stone for the lemmas below) an operator replaces the top two fragments `l r` by `( l op r )` |
| Postfix.RebuildFunction | expressao.h:263-275 | (one-pass unfolding, a stepping stone for the lemmas below) a function replaces the top fragment `x` by `f( x )` |
| Postfix.RebuildShort | expressao.h:250-277 | (one-pass unfolding, a stepping stone for the lemmas below) missing fragments or an invalid token give NULL |
| Postfix.RebuildFromSucceeds | expressao.h:236-285 | the rebuilder succeeds exactly when the operand count ends at one and every number fits the stack |
| Postfix.RebuildSucceeds | expressao.h:283-284 | on a whole text, success exactly for well-formed postfix that fits |
| Postfix.EvalFromDiscipline | expressao.h:287-325 | a value is returned only for well-formed postfix; a syntax error only for text that is not well-formed; a memory error only for text that does not fit |
| Postfix.EvaluateDiscipline | expressao.h:318-324 | the same on a whole text, which the evaluator first clears the stack for |
| Postfix.EvaluateAgreesWithRebuild | expressao.h:236-325 | a text the evaluator computes is one the rebuilder accepts; a text the rebuilder accepts evaluates to a value or to a math error |
| Infix.NumberEnd | expressao.h:152-156 | a number takes digits and points, at most 63 characters |
| Infix.WordEnd | expressao.h:173-177 | a word takes letters, at most 9 |
| Infix.PopToOpenShape | expressao.h:197-199 | `)` writes every entry above the nearest `(`, top first, and stops at it or at the bottom |
| Infix.PopWhileShape | expressao.h:210-216 | an operator writes the entries that go first (no `(`, tighter, or as tight unless it is `^`), top first, and stops at the first entry that does not |
| Infix.Flush | expressao.h:226-230 | the final loop succeeds exactly when no `(` is left, writing every entry top first |
| Infix.StepAt | expressao.h:149-223 | each pass consumes at least one character |
| Infix.StepNumber | expressao.h:152-160 | (one-pass unfolding, a stepping stone for the lemmas below) a digit, or a '.' before a digit, starts a number that is written as one token |
| Infix.StepNegative | expressao.h:162-171 | (one-pass unfolding, a stepping stone for the lemmas below) while an operand is expected, a `-` is read together with the digits after it as one number |
| Infix.StepWord | expressao.h:173-187 | (one-pass unfolding, a stepping stone for the lemmas below) a known function name pushes its marker; any other word gives NULL |
| Infix.StepOther | expressao.h:189-223 | (one-pass unfolding, a stepping stone for the lemmas below) `(` is pushed, `)` closes, an operator is pushed after popping, and any other character gives NULL |
| Infix.CloseFrom | expressao.h:196-208 | (one-pass unfolding, a stepping stone for the lemmas below) `)` without `(` gives NULL; otherwise the `(` is dropped and a marker right under it is written |
| Infix.ConvertReadable | expressao.h:136-234 | every token written is a blank-free number, operator or function name, and the output splits back into exactly those tokens |
| Infix.ConvertBalanced | expressao.h:196-228 | only texts with balanced parentheses are converted |
| Calculadora.Calculator.constructor | expressao.h:119-127 | the three stacks start empty |
| Calculadora.Calculator.Destroy | expressao.h:129-134 | the fragments still held are released |
| Calculadora.Calculator.ReadNumber | expressao.h:155 | the number loop stops where `NumberEnd` says |
| Calculadora.Calculator.ReadWord | expressao.h:176 | the word loop stops where `WordEnd` says |
| Calculadora.Calculator.CloseParen | expressao.h:196-208 | the `)` branch on the array stack does what `Close` specifies |
| Calculadora.Calculator.PopToOpenLoop | expressao.h:197-199 | the loop leaves the stack and output of `PopToOpen` |
| Calculadora.Calculator.PushOperator | expressao.h:210-220 | the operator branch leaves the state `Incoming` specifies |
| Calculadora.Calculator.ConvertStep | expressao.h:149-223 | one round of the main loop is one `StepAt` |
| Calculadora.Calculator.WordStep | expressao.h:173-187 | the letter branch is the word step |
| Calculadora.Calculator.SymbolStep | expressao.h:189-223 | the `(`, `)`, operator and invalid-character branches |
| Calculadora.Calculator.InfixToPostfix | expressao.h:136-234 | returns `ToPostfix(s)` and leaves the operator stack as the conversion does |
| Calculadora.Calculator.EvalToken | expressao.h:296-313 | one token of the evaluation loop continues or ends as `EvalFrom` says |
| Calculadora.Calculator.OperatorToken | expressao.h:298-304 | the operator branch on the array stack |
| Calculadora.Calculator.FunctionToken | expressao.h:305-310 | the function branch on the array stack |
| Calculadora.Calculator.Evaluate | expressao.h:287-325 | the status, the value on success, and the value stack are those of `EvalFrom` |
| Calculadora.Calculator.RebuildToken | expressao.h:245-278 | one token of the rebuilding loop; on NULL the stack is drained |
| Calculadora.Calculator.PostfixToInfix | expressao.h:236-285 | returns `Rebuild(text)` and leaves the fragment stack empty on every exit |
| Trees.RebuildTree | expressao.h:244-280 | reading a tree's postfix tokens pushes exactly the tree's parenthesised text |
| Trees.EvalTree | expressao.h:295-315 | reading a tree's postfix tokens pushes its value, or ends in a math error where the value is undefined |
| Trees.ConvertTree | expressao.h:149-224 | converting a tree's fully parenthesised text writes the tree's postfix tokens |
| Trees.ConvertShown | expressao.h:136-234 | the converter turns a tree's text into the tree's postfix text |
| Trees.RebuildShown | expressao.h:236-285 | the rebuilder turns a tree's postfix text back into the tree's text |
| Trees.EvaluateShown | expressao.h:287-325 | the evaluator computes the tree's value from its postfix text, or reports a math error |
| Trees.PostfixRoundTrip | expressao.h:136-285 | converting a tree's text and rebuilding the result gives the text back |
| Minimal.ConvertMinimal | expressao.h:136-234 | on a tree's text written with only the parentheses that precedence and grouping call for, the converter writes the tree's postfix tokens: `^` binds tightest and groups to the right, `*` `/` `%` bind tighter than `+` `-`, and those group to the left |
| Minimal.EvaluateMinimal | expressao.h:136-325 | the evaluator computes that tree's value from the converted text, or reports a math error where the value is undefined |
| Minimal.ReadMin | expressao.h:149-224 | reading such a text from a state expecting an operand writes the tree's tokens except the operators still pending on the stack |
| Minimal.ReadBin | expressao.h:209-223 | "l op r": the left operand, then `op` after popping what goes first, then the right operand over `op` |
| Minimal.ReadWrapped | expressao.h:189-208 | "( x )" writes every postfix token of x and leaves the stack as it found it |
| Minimal.ReadCall | expressao.h:173-208 | "f( x )" writes the tokens of x and then the name, which the `)` pops from under the `(` |
| Minimal.PendGoesFirst | expressao.h:211-215 | every operator left pending by an operand whose own operator goes before `op` also goes before `op` |
| Minimal.PopAll | expressao.h:212-216 | the operator loop writes exactly the pending entries that go first, top first, and stops at the first entry that does not |
| Minimal.PopPending | expressao.h:197-199 | the `)` loop writes the pending operators top first and stops at the `(` below them |
| Minimal.DoneEmitted | expressao.h:226-230 | what is written plus the pending operators, written top first by the final loop, are the tree's postfix tokens |
| Scenarios.DriverGrouped | main.c:59 | "(3 + 4) * 5" becomes "3 4 + 5 *", which is 35 |
| Scenarios.DriverProduct | main.c:60 | "7 * 2 + 4" becomes "7 2 * 4 +", which is 18 |
| Scenarios.DriverNested | main.c:61 | "8 + (5 * (2 + 4))" becomes "8 5 2 4 + * +", which is 38 |
| Scenarios.DriverQuotient | main.c:62 | "(6 / 2 + 3) * 4" becomes "6 2 / 3 + 4 *", which is 24 |
| Scenarios.DriverDeep | main.c:63 | "9 + (5 * (2 + 8 * 4))" becomes "9 5 2 8 4 * + * +", which is 179 |
| Scenarios.DriverRoot | main.c:68 | "raiz(64) % 3" becomes "64 raiz 3 %", which is 2 when the root of 64 is 8 |
| Scenarios.DriverSigned | main.c:69 | "-5 * (-3 + 1)" becomes "-5 -3 1 + *", which is 10 |
| Scenarios.DriverDivision | main.c:72 | "10 / 0" converts, and its evaluation is a math error |
| Scenarios.DriverDoubled | main.c:73 | "5 + * 3" is converted to "5 3 * +", and its evaluation is a syntax error |
| Scenarios.DriverUnclosed | main.c:74 | "(10 + 2" gives NULL |
| Scenarios.PowerGroupsRight | expressao.h:211-214 | "2 ^ 3 ^ 2" becomes "2 3 2 ^ ^" and evaluates as 2^(3^2) |
| Scenarios.MinusGroupsLeft | expressao.h:212-214 | "8 - 3 - 2" becomes "8 3 - 2 -" |
| Legacy.LegacyKind | expressao.c:316-351 | a number is a digit first, or '-' or '.' followed by a digit; a function name is a function |
| Legacy.LegacyKindNarrower | expressao.c:233 | the older reader takes a token as the newer one does, except for "-" or "." tokens not followed by a digit, which it finds invalid |
| Legacy.ValorAgrees | expressao.c:299-374 | when no number meets a full stack and the readers agree on the tokens, `getValor` returns the value `calcular_valor_posfixo` computes, and NAN exactly where that reports an error |
| Legacy.InFixaAgrees | expressao.c:215-295 | under the same conditions, `getFormaInFixa` gives the rebuilt text for well-formed postfix, NULL when operands are missing or a token is invalid, and `""` when the count ends other than at one |
| Legacy.NumeralEnd | expressao.c:398-403 | a number takes every following digit and point, without limit |
| Legacy.LetterEnd | expressao.c:411-416 | a word takes letters, at most 63 |
| Legacy.PopsBeforeGroupsLeft | expressao.c:463-465 | the pop test is the newer one, plus popping a `^` before an incoming `^`: every operator groups left |
| Legacy.PopToOpenShape | expressao.c:439-451 | `)` writes every entry above the nearest `(` and stops at it or at the bottom |
| Legacy.PopWhileShape | expressao.c:463-477 | an operator writes the entries that bind at least as tightly and are not `(`, and stops at the first that does not |
| Legacy.Flush | expressao.c:487-503 | the final loop succeeds exactly when no `(` is left, writing every entry top first |
| Legacy.StepAt | expressao.c:392-485 | each pass consumes at least one character |
| Legacy.StoreAt | expressao.c:442-443 | a store at `k` keeps what lies before `k`, puts the character at `k`, and lengthens the string when `k` is at its end |
| Legacy.RenderKeepsCursor | expressao.c:404-505 | up to `k`, the buffer holds only the operators stored at `k`, each followed by a blank |
| Legacy.PosFixaKeepsOperators | expressao.c:504-506 | the returned text is the stored operators alone, joined by blanks; NULL where the conversion fails |
| Legacy.PosFixaIntendedReadable | expressao.c:384-509 | the corrected output is every number, operator and function name written, each a token the readers classify, and it splits back into exactly those tokens |
| Legacy.ConvertBalanced | expressao.c:452-492 | only texts with balanced parentheses are converted |
| Legacy.ConvertRejects | expressao.c:482-484 | a character with no branch anywhere in the text gives NULL |
| Legacy.SumLosesOperands | expressao.c:404-405 | "3 + 4" comes out as "+", where "3 4 +" was meant |
| Legacy.PowerGroupsLeft | expressao.c:462-479 | "2 ^ 3 ^ 2" is meant to become "2 3 ^ 2 ^" (left grouping), and comes out as "^ ^" |
| Legacy.Globals.constructor | expressao.c:13-16 | the static stacks start empty |
| Legacy.Globals.ReadNumeral | expressao.c:400-402 | the number loop stops where `NumeralEnd` says |
| Legacy.Globals.ReadLetters | expressao.c:413-415 | the word loop stops where `LetterEnd` says |
| Legacy.Globals.WriteEntry | expressao.c:441-450 | writing a popped entry changes the buffer and `k` as one more `Write` does |
| Legacy.Globals.PopToOpenLoop | expressao.c:439-451 | the loop leaves the stack and writes of `PopToOpen` |
| Legacy.Globals.WriteTop | expressao.c:466-476 | popping the top entry and writing it drops that entry from the stack and is one more `Write` of it |
| Legacy.Globals.PopWhileLoop | expressao.c:463-477 | the operator loop leaves the stack and writes of `PopWhile` |
| Legacy.Globals.PushOperator | expressao.c:462-479 | the loop leaves the stack and writes of `PopWhile`, then pushes the operator (dropped on a full stack) |
| Legacy.Globals.PosFixaStep | expressao.c:392-485 | one round of the main loop is one `StepAt` |
| Legacy.Globals.FlushLoop | expressao.c:486-503 | the final loop writes every entry as `Flush` does; a '(' ends it with NULL and the stack left as `Flush` leaves it, otherwise the stack ends empty |
| Legacy.Globals.FlushEntry | expressao.c:488-502 | one round pops the top entry; a `(` is reported and nothing is written, any other entry is one more `Write` |
| Legacy.Globals.GetFormaPosFixa | expressao.c:384-509 | returns `PosFixa(s)` (the buffer as written) and leaves the operator stack as the conversion does |
| Legacy.Globals.ValorToken | expressao.c:316-359 | one token of the evaluation loop continues as `ValorFrom` says, or returns NAN with the value stack empty |
| Legacy.Globals.ValorOperator | expressao.c:319-338 | an operator pops two values and pushes their result as `ValorFrom` says; a missing operand or a NAN result returns NAN with the value stack empty |
| Legacy.Globals.ValorCall | expressao.c:339-352 | a function name pops one value and pushes its result as `ValorFrom` says; a missing argument or a NAN result returns NAN with the value stack empty |
| Legacy.Globals.ValorResult | expressao.c:363-374 | after the loop, a single value left is the result and anything else is NAN; the value stack ends empty |
| Legacy.Globals.GetValor | expressao.c:299-374 | returns `Valor(m, text)`, and the value stack is empty on every exit |
| Legacy.Globals.InFixaToken | expressao.c:233-278 | one token of the rebuilding loop continues as `InFixaFrom` says, or returns NULL with the fragment stack drained |
| Legacy.Globals.GetFormaInFixa | expressao.c:215-295 | returns `InFixa(text)`, and the fragment stack is empty on every exit |

## Left out

- Floating point. Values are exact reals; the single-precision `float`, its rounding and NaN propagation are not modelled. `pow`, `sqrt`, `log10` and the degree-based `sin`/`cos`/`tan` are uninterpreted (the `Libm` parameter); the degree-to-radian conversion with `M_PI` is inside them.
- Calculadora.Calculator.Evaluate: the `CALC_ERRO_DESCONHECIDO` exit for null arguments (expressao.h:288) and the null checks of the other two operations are not modelled, because a Dafny string or object is never null.
- Allocation failure (`malloc`, `strdup`) in both variants is not modelled; the string stack holds values, not owned pointers, so `free` has no counterpart.
- The `fprintf(stderr, …)` diagnostics are not modelled.
- Output buffer limits: the `k < buffer_len - 1` guard of the newer converter, the 512-byte `posFixa` and `inFixaOutput`, the 256-byte `buffer` of `getFormaInFixa` and the 64-byte `token_str` of the older converter (a number longer than 63 characters overflows it) are not modelled; the model's strings grow as needed.
- A `'\0'` inside the text: the model's input is the characters before the C terminator; a `'\0'` in the sequence is treated as an unexpected character.
- main.c's printing and its float comparison with an epsilon; its cases are proved as exact values in `Scenarios`.
- Infix.ConvertBalanced: requires the text to have at most 256 characters, because past 256 pending entries `empilhaChar` silently drops a `(` and the stack no longer reflects the text.
- Legacy.ConvertBalanced: requires at most 256 characters, for the same silent drop.
- Legacy.ValorAgrees: holds only where no number is pushed on a full stack, since `getValor` drops that number where `calcular_valor_posfixo` reports a memory error.
- Legacy.InFixaAgrees: holds only where no number is pushed on a full stack, for the same reason.
- Trees.ConvertShown, Trees.RebuildShown, Trees.EvaluateShown and Trees.PostfixRoundTrip require the tree to fit the 256-entry stacks.
- Minimal.ConvertMinimal, Minimal.EvaluateMinimal and Minimal.ReadMin require the pending operators and parentheses to fit the 256-entry operator stack (and, for the value, the operands to fit the value stack).
- Scenarios.DriverRoot and Scenarios.PowerGroupsRight take the needed values of `sqrt` and `pow` as preconditions, as the math library is a parameter.
- The cases of main.c that need `log`, `cos` or `sen` values (main.c:64-67) are not proved, as those values are the math library's.
- Arith.Atof: reads decimal text with an optional exponent only; the hexadecimal (`0x…`), `inf`/`infinity` and `nan` forms of C's `atof` are not read (`"-nan"` gives 0 in the model, where C gives NaN, which `calcular_valor_posfixo` then reports as a syntax error at expressao.h:300 or expressao.h:318-320), and the double's range and rounding are not modelled.

## Findings

| source | as written | input that shows it | evidently intended | confidence | as-written member | corrected member |
|---|---|---|---|---|---|---|
| expressao.c:404-405 | numbers and function names are appended with `strcat`, which does not move `k`; operators are then stored at `k`, over the appended text, and the terminator is set at `k` | "3 + 4" returns "+"; "2 ^ 3 ^ 2" returns "^ ^" | every number, operator and function name in the order written: "3 4 +" and "2 3 ^ 2 ^" | high (proved on the model; not executed) | Legacy.SumLosesOperands | Legacy.PosFixaIntendedReadable |
