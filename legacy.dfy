/** The older variant, `expressao.c`: the same three operations over
    process-wide stacks (`getFormaPosFixa_Internal`, `getValor`,
    `getFormaInFixa`). It differs from `expressao.h` in its token tests, in
    dropping a push on a full stack without a word, in returning "" for a
    malformed postfix text, in grouping every operator to the left, in having
    no sign for numbers, and in how it writes its postfix output: numbers and
    function names are appended with `strcat`, operators are written at an
    index `k` that the appends do not move. */
module Legacy {
  import opened Wrappers
  import opened CType
  import opened Symbols
  import opened Arith
  import opened Text
  import opened Postfix
  import Stacks
  import Infix

  // ---------------------------------------------------------------------
  // Reading postfix text
  // ---------------------------------------------------------------------

  /** A number starts with a digit, or with a '-' or a '.' followed by a
      digit. */
  predicate IsLegacyNumber(t: string) {
    t != [] && (IsDigit(t[0]) || (|t| > 1 && (t[0] == '-' || t[0] == '.') && IsDigit(t[1])))
  }

  /** How `getValor` and `getFormaInFixa` read a token; the tests are made
      in this order. */
  function LegacyKind(t: string): (k: Kind)
    ensures k == Number <==> IsLegacyNumber(t)
    ensures k == Function <==> IsFunctionName(t)
  {
    if IsLegacyNumber(t) then Number
    else if IsOperatorToken(t) then Operator
    else if IsFunctionName(t) then Function
    else Invalid
  }

  /** The two readers classify every token alike, except that `expressao.h`
      also takes "-", "." followed by a non-digit (as in "-.5" or ".") for a
      number where `expressao.c` finds an invalid token. */
  lemma LegacyKindNarrower(t: string)
    ensures LegacyKind(t) == KindOf(t) || (KindOf(t) == Number && LegacyKind(t) == Invalid)
    ensures LegacyKind(t) != KindOf(t) <==>
      t != [] && (t[0] == '.' || (t[0] == '-' && |t| > 1)) && !(|t| > 1 && IsDigit(t[1]))
  {
  }

  // ---------------------------------------------------------------------
  // getValor
  // ---------------------------------------------------------------------

  /** Evaluation of the remaining tokens over the value stack `st`; `None`
      is the NAN returned for a missing operand, an invalid token, a NAN
      result and anything but one value at the end. A number pushed on a
      full stack is dropped. */
  function ValorFrom(m: Libm, toks: seq<string>, st: seq<real>): Option<real>
    decreases |toks|
  {
    if toks == [] then
      if |st| == 1 then Some(st[0]) else None
    else
      var t := toks[0];
      match LegacyKind(t)
      case Number =>
        ValorFrom(m, toks[1..], if |st| < Stacks.Capacity then st + [Atof(t)] else st)
      case Operator =>
        if |st| < 2 then None
        else
          match Operate(m, t[0], st[|st| - 1], st[|st| - 2]) {
            case None => None
            case Some(v) => ValorFrom(m, toks[1..], st[..|st| - 2] + [v])
          }
      case Function =>
        if st == [] then None
        else
          match ApplyFunction(m, t, st[|st| - 1]) {
            case None => None
            case Some(v) => ValorFrom(m, toks[1..], st[..|st| - 1] + [v])
          }
      case Invalid => None
  }

  /** getValor on a postfix string: the value stack is cleared on entry. */
  function Valor(m: Libm, text: string): Option<real> {
    ValorFrom(m, Tokens(text), [])
  }

  /** Where no number meets a full stack and both readers classify every
      token alike, `getValor` returns the value `calcular_valor_posfixo`
      returns, and NAN exactly where it reports an error. */
  lemma {:induction false} ValorAgrees(m: Libm, toks: seq<string>, st: seq<real>)
    requires |st| <= Stacks.Capacity && Fits(toks, |st|)
    requires forall t <- toks :: LegacyKind(t) == KindOf(t)
    ensures var o := EvalFrom(m, toks, st).outcome;
      ValorFrom(m, toks, st) == if o.Ok? then Some(o.value) else None
    decreases |toks|
  {
    if toks != [] {
      var next := ValorStep(m, toks, st);
      if next.Some? {
        ValorAgrees(m, toks[1..], next.value);
      }
    }
  }

  /** The conditions of `ValorAgrees`. */
  predicate AgreesOn(toks: seq<string>, st: seq<real>) {
    && |st| <= Stacks.Capacity
    && Fits(toks, |st|)
    && forall t <- toks :: LegacyKind(t) == KindOf(t)
  }

  /** One token: both stop in agreement, or both go on to the stack `next`,
      where the conditions still hold. */
  lemma ValorStep(m: Libm, toks: seq<string>, st: seq<real>) returns (next: Option<seq<real>>)
    requires toks != [] && AgreesOn(toks, st)
    ensures next.None? ==> ValorMatches(m, toks, st)
    ensures next.Some? ==> AgreesOn(toks[1..], next.value)
    ensures next.Some? && ValorMatches(m, toks[1..], next.value) ==> ValorMatches(m, toks, st)
  {
    var t := toks[0];
    assert t in toks;
    match KindOf(t)
    case Number =>
      next := Some(st + [Atof(t)]);
      AgreesPush(toks, st, Atof(t));
      if ValorMatches(m, toks[1..], next.value) {
        ValorPushes(m, toks, st);
      }
    case Operator =>
      if |st| >= 2 && Operate(m, t[0], st[|st| - 1], st[|st| - 2]).Some? {
        var v := Operate(m, t[0], st[|st| - 1], st[|st| - 2]).value;
        next := Some(st[..|st| - 2] + [v]);
        AgreesReplace(toks, st, 2, v);
        if ValorMatches(m, toks[1..], next.value) {
          ValorReplaces(m, toks, st, 2, v);
        }
      } else {
        next := None;
        ValorStops(m, toks, st);
      }
    case Function =>
      if st != [] && ApplyFunction(m, t, st[|st| - 1]).Some? {
        var v := ApplyFunction(m, t, st[|st| - 1]).value;
        next := Some(st[..|st| - 1] + [v]);
        AgreesReplace(toks, st, 1, v);
        if ValorMatches(m, toks[1..], next.value) {
          ValorReplaces(m, toks, st, 1, v);
        }
      } else {
        next := None;
        ValorStops(m, toks, st);
      }
    case Invalid =>
      next := None;
      ValorStops(m, toks, st);
  }

  /** After a number is pushed, the conditions hold for the tokens after
      it. */
  lemma AgreesPush(toks: seq<string>, st: seq<real>, x: real)
    requires toks != [] && KindOf(toks[0]) == Number && AgreesOn(toks, st)
    ensures |st| < Stacks.Capacity && AgreesOn(toks[1..], st + [x])
  {
    assert forall u <- toks[1..] :: u in toks;
  }

  /** After `n` operands are replaced by one value, the conditions hold for
      the tokens after the operator or function. */
  lemma AgreesReplace(toks: seq<string>, st: seq<real>, n: nat, v: real)
    requires toks != [] && 1 <= n <= 2 && n <= |st| && AgreesOn(toks, st)
    requires n == 2 ==> KindOf(toks[0]) == Operator
    requires n == 1 ==> KindOf(toks[0]) == Function
    ensures AgreesOn(toks[1..], st[..|st| - n] + [v])
  {
    assert forall u <- toks[1..] :: u in toks;
  }

  /** `getValor` returns the value the newer evaluator returns, and NAN
      exactly where that reports an error. */
  predicate ValorMatches(m: Libm, toks: seq<string>, st: seq<real>) {
    var o := EvalFrom(m, toks, st).outcome;
    ValorFrom(m, toks, st) == if o.Ok? then Some(o.value) else None
  }

  /** A number pushed by both keeps the agreement of the tokens after it. */
  lemma ValorPushes(m: Libm, toks: seq<string>, st: seq<real>)
    requires toks != [] && KindOf(toks[0]) == Number && LegacyKind(toks[0]) == Number && |st| < Stacks.Capacity
    requires ValorMatches(m, toks[1..], st + [Atof(toks[0])])
    ensures ValorMatches(m, toks, st)
  {
    assert EvalFrom(m, toks, st) == EvalFrom(m, toks[1..], st + [Atof(toks[0])]);
    assert ValorFrom(m, toks, st) == ValorFrom(m, toks[1..], st + [Atof(toks[0])]);
  }

  /** An operator or a function replacing its `n` operands by `v` in both
      keeps the agreement of the tokens after it. */
  lemma ValorReplaces(m: Libm, toks: seq<string>, st: seq<real>, n: nat, v: real)
    requires toks != [] && 1 <= n <= 2 && n <= |st| <= Stacks.Capacity
    requires LegacyKind(toks[0]) == KindOf(toks[0])
    requires n == 2 ==> KindOf(toks[0]) == Operator && Operate(m, toks[0][0], st[|st| - 1], st[|st| - 2]) == Some(v)
    requires n == 1 ==> KindOf(toks[0]) == Function && ApplyFunction(m, toks[0], st[|st| - 1]) == Some(v)
    requires ValorMatches(m, toks[1..], st[..|st| - n] + [v])
    ensures ValorMatches(m, toks, st)
  {
    assert EvalFrom(m, toks, st) == EvalFrom(m, toks[1..], st[..|st| - n] + [v]);
    assert ValorFrom(m, toks, st) == ValorFrom(m, toks[1..], st[..|st| - n] + [v]);
  }

  /** A missing operand, a NAN result or an invalid token ends both: with
      NAN and with an error. */
  lemma ValorStops(m: Libm, toks: seq<string>, st: seq<real>)
    requires toks != [] && LegacyKind(toks[0]) == KindOf(toks[0])
    requires || (KindOf(toks[0]) == Operator && (|st| < 2 || Operate(m, toks[0][0], st[|st| - 1], st[|st| - 2]) == None))
             || (KindOf(toks[0]) == Function && (st == [] || ApplyFunction(m, toks[0], st[|st| - 1]) == None))
             || KindOf(toks[0]) == Invalid
    ensures ValorMatches(m, toks, st)
  {
    assert !EvalFrom(m, toks, st).outcome.Ok?;
    assert ValorFrom(m, toks, st) == None;
  }

  // ---------------------------------------------------------------------
  // getFormaInFixa
  // ---------------------------------------------------------------------

  /** Rebuilding over the fragment stack `st`: `None` is the NULL of a
      missing operand or an invalid token; anything but one fragment at the
      end gives "". A number pushed on a full stack is dropped. */
  function InFixaFrom(toks: seq<string>, st: seq<string>): Option<string>
    decreases |toks|
  {
    if toks == [] then
      if |st| == 1 then Some(st[0]) else Some("")
    else
      var t := toks[0];
      match LegacyKind(t)
      case Number =>
        InFixaFrom(toks[1..], if |st| < Stacks.Capacity then st + [t] else st)
      case Operator =>
        if |st| < 2 then None
        else InFixaFrom(toks[1..], st[..|st| - 2] + [Parenthesize(st[|st| - 2], t, st[|st| - 1])])
      case Function =>
        if st == [] then None
        else InFixaFrom(toks[1..], st[..|st| - 1] + [Call(t, st[|st| - 1])])
      case Invalid => None
  }

  /** getFormaInFixa on a postfix string. */
  function InFixa(text: string): Option<string> {
    InFixaFrom(Tokens(text), [])
  }

  /** Where no number meets a full stack and both readers classify every
      token alike, `getFormaInFixa` writes what `converter_posfixo_para_infixo`
      writes; where the operands run out or a token is invalid both give
      NULL; where the count of fragments left is not one, `getFormaInFixa`
      gives "" and `converter_posfixo_para_infixo` NULL. */
  lemma {:induction false} InFixaAgrees(toks: seq<string>, st: seq<string>)
    requires |st| <= Stacks.Capacity && Fits(toks, |st|)
    requires forall t <- toks :: LegacyKind(t) == KindOf(t)
    ensures Height(toks, |st|) == Some(1) ==> InFixaFrom(toks, st) == RebuildFrom(toks, st)
    ensures Height(toks, |st|).None? ==> InFixaFrom(toks, st) == RebuildFrom(toks, st) == None
    ensures Height(toks, |st|).Some? && Height(toks, |st|) != Some(1) ==>
      InFixaFrom(toks, st) == Some("") && RebuildFrom(toks, st) == None
    decreases |toks|
  {
    if toks != [] {
      var t := toks[0];
      assert t in toks;
      assert forall u <- toks[1..] :: u in toks;
      match KindOf(t)
      case Number =>
        InFixaAgrees(toks[1..], st + [t]);
      case Operator =>
        if |st| >= 2 {
          InFixaAgrees(toks[1..], st[..|st| - 2] + [Parenthesize(st[|st| - 2], t, st[|st| - 1])]);
        }
      case Function =>
        if st != [] {
          InFixaAgrees(toks[1..], st[..|st| - 1] + [Call(t, st[|st| - 1])]);
        }
      case Invalid =>
    }
  }

  // ---------------------------------------------------------------------
  // getFormaPosFixa_Internal: the scanner and the operator stack
  // ---------------------------------------------------------------------

  /** One write into the `posFixa` buffer: a number or function name (with
      its blank) appended by `strcat`, or an operator and a blank stored at
      the index `k`. */
  datatype Write = Appended(text: string) | AtCursor(op: char)

  /** How a popped entry is written: a function marker by name with
      `strcat`, anything else at the index `k`. */
  function WriteOf(c: char): Write {
    if IsMarker(c) then Appended(MarkerName(c)) else AtCursor(c)
  }

  /** The writes of the popped entries, the top first. */
  function WritesOf(popped: seq<char>): (ws: seq<Write>)
    ensures |ws| == |popped|
  {
    if popped == [] then [] else [WriteOf(popped[|popped| - 1])] + WritesOf(popped[..|popped| - 1])
  }

  /** Where the reading of a number stops: digits and points, with no
      limit on their count. */
  function NumeralEnd(s: string, i: nat): (e: nat)
    requires i <= |s|
    ensures i <= e <= |s|
    ensures forall k :: i <= k < e ==> IsNumeral(s[k])
    ensures e == |s| || !IsNumeral(s[e])
    decreases |s| - i
  {
    if i < |s| && IsNumeral(s[i]) then NumeralEnd(s, i + 1) else i
  }

  /** A word fills at most 63 characters of `token_str[64]`. */
  const LetterLimit: nat := 63

  /** Where the reading of a word stops: letters while there is room. */
  function LetterEnd(s: string, i: nat, j: nat): (e: nat)
    requires i <= |s| && j <= LetterLimit
    ensures i <= e <= |s| && e - i <= LetterLimit - j
    ensures forall k :: i <= k < e ==> IsAlpha(s[k])
    ensures j < LetterLimit && i < |s| && IsAlpha(s[i]) ==> i < e
    decreases |s| - i
  {
    if j < LetterLimit && i < |s| && IsAlpha(s[i]) then LetterEnd(s, i + 1, j + 1) else i
  }

  /** empilhaChar: a push on a full stack is dropped with only a message. */
  function PushChar(st: seq<char>, c: char): seq<char> {
    if |st| >= Stacks.Capacity then st else st + [c]
  }

  /** Whether the entry `top` is popped before the incoming operator `op`
      is pushed: it is no '(' and binds at least as tightly. */
  predicate PopsBefore(top: char, op: char) {
    top != '(' && Precedence(top) >= Precedence(op)
  }

  /** The pop test of `expressao.c` is that of `expressao.h` with one more
      case: a '^' on the stack is popped before an incoming '^', so in this
      converter '^' groups to the left like every other operator. */
  lemma PopsBeforeGroupsLeft(top: char, op: char)
    requires IsOperator(op)
    ensures PopsBefore(top, op) <==> Infix.GoesFirst(top, op) || (top == '^' && op == '^')
  {
  }

  /** Writing the top entry, then the entries from `n` up to it. */
  lemma WritesPop(st: seq<char>, n: nat, ws: seq<Write>)
    requires n < |st|
    ensures ws + [WriteOf(st[|st| - 1])] + WritesOf(st[n..|st| - 1]) == ws + WritesOf(st[n..])
  {
    var p := st[n..];
    assert p[..|p| - 1] == st[n..|st| - 1];
    assert p[|p| - 1] == st[|st| - 1];
  }

  /** The loop of the ')' branch: pop and write every entry above the
      nearest '('. */
  function PopToOpen(st: seq<char>, ws: seq<Write>): (seq<char>, seq<Write>)
    decreases |st|
  {
    if st == [] || st[|st| - 1] == '(' then (st, ws)
    else
      var r := PopToOpen(st[..|st| - 1], ws + [WriteOf(st[|st| - 1])]);
      r
  }

  /** The loop of the operator branch: pop and write entries while they
      bind at least as tightly as `op`. */
  function PopWhile(st: seq<char>, ws: seq<Write>, op: char): (seq<char>, seq<Write>)
    decreases |st|
  {
    if st == [] || !PopsBefore(st[|st| - 1], op) then (st, ws)
    else
      var r := PopWhile(st[..|st| - 1], ws + [WriteOf(st[|st| - 1])], op);
      r
  }
  /** What `PopToOpen` leaves: a prefix of the stack, ending at a '(' or
      empty, with no '(' among the entries it removed, which it writes
      top first. */
  lemma {:induction false} PopToOpenShape(st: seq<char>, ws: seq<Write>)
    ensures var r := PopToOpen(st, ws);
      && r.0 <= st
      && (r.0 == [] || r.0[|r.0| - 1] == '(')
      && (forall k :: |r.0| <= k < |st| ==> st[k] != '(')
      && r.1 == ws + WritesOf(st[|r.0|..])
    decreases |st|
  {
    if st == [] || st[|st| - 1] == '(' {
    } else {
      PopToOpenShape(st[..|st| - 1], ws + [WriteOf(st[|st| - 1])]);
      var r := PopToOpen(st[..|st| - 1], ws + [WriteOf(st[|st| - 1])]);
      WritesPop(st, |r.0|, ws);
      assert st[..|st| - 1][..|r.0|] == st[..|r.0|];
    }
  }

  /** What `PopWhile` leaves: a prefix of the stack whose top, if any,
      does not pop before `op`, every removed entry popping before it, and
      the removed entries written top first. */
  lemma {:induction false} PopWhileShape(st: seq<char>, ws: seq<Write>, op: char)
    ensures var r := PopWhile(st, ws, op);
      && r.0 <= st
      && (r.0 == [] || !PopsBefore(r.0[|r.0| - 1], op))
      && (forall k :: |r.0| <= k < |st| ==> PopsBefore(st[k], op))
      && r.1 == ws + WritesOf(st[|r.0|..])
    decreases |st|
  {
    if st == [] || !PopsBefore(st[|st| - 1], op) {
    } else {
      PopWhileShape(st[..|st| - 1], ws + [WriteOf(st[|st| - 1])], op);
      var r := PopWhile(st[..|st| - 1], ws + [WriteOf(st[|st| - 1])], op);
      WritesPop(st, |r.0|, ws);
      assert st[..|st| - 1][..|r.0|] == st[..|r.0|];
    }
  }


  /** The writes of a conversion (`None` for NULL) and the operator stack
      it leaves. */
  datatype LConv = LConv(writes: Option<seq<Write>>, stack: seq<char>)

  /** The final loop: pop and write every entry; a '(' is an unbalanced
      parenthesis. */
  function Flush(st: seq<char>, ws: seq<Write>): (r: LConv)
    ensures r.writes.Some? <==> '(' !in st
    ensures r.writes.Some? ==> r.stack == [] && r.writes.value == ws + WritesOf(st)
    decreases |st|
  {
    if st == [] then LConv(Some(ws), [])
    else if st[|st| - 1] == '(' then LConv(None, st[..|st| - 1])
    else
      var r := Flush(st[..|st| - 1], ws + [WriteOf(st[|st| - 1])]);
      assert st == st[..|st| - 1] + [st[|st| - 1]];
      r
  }

  /** The variables of the main loop: the position `i`, the operator stack
      and the writes made so far. */
  datatype LState = LState(i: nat, stack: seq<char>, writes: seq<Write>)

  /** One pass of the main loop: the next state, or NULL with the stack as
      it was left. */
  datatype LStep = LNext(next: LState) | LStop(stack: seq<char>)

  /** One pass of the main loop at a character of the input; the branches
      are tested in the converter's order. Only ' ' is skipped, a number is
      a run of digits and points, and a '-' is always an operator. */
  function StepAt(s: string, q: LState): (r: LStep)
    requires q.i < |s|
    ensures r.LNext? ==> q.i < r.next.i <= |s|
  {
    var i, st, ws := q.i, q.stack, q.writes;
    var c := s[i];
    if c == ' ' then LNext(q.(i := i + 1))
    else if IsNumeral(c) then
      var e := NumeralEnd(s, i);
      LNext(LState(e, st, ws + [Appended(s[i..e])]))
    else if IsAlpha(c) then
      var e := LetterEnd(s, i, 0);
      if IsFunctionName(s[i..e]) then LNext(q.(i := e, stack := PushChar(st, Marker(s[i..e]))))
      else LStop(st)
    else if c == '(' then LNext(q.(i := i + 1, stack := PushChar(st, '(')))
    else if c == ')' then
      var popped := PopToOpen(st, ws);
      if popped.0 == [] then LStop([])
      else LNext(LState(i + 1, popped.0[..|popped.0| - 1], popped.1))
    else if IsOperator(c) then
      var popped := PopWhile(st, ws, c);
      LNext(LState(i + 1, PushChar(popped.0, c), popped.1))
    else LStop(st)
  }

  /** The main loop from state `q` to the end of the input, then the final
      emptying of the stack. */
  function Run(s: string, q: LState): LConv
    requires q.i <= |s|
    decreases |s| - q.i
  {
    if q.i == |s| then Flush(q.stack, q.writes)
    else
      match StepAt(s, q)
      case LStop(st) => LConv(None, st)
      case LNext(q') => Run(s, q')
  }

  /** The whole conversion: empty operator stack, no writes. */
  function Convert(s: string): LConv {
    Run(s, LState(0, [], []))
  }

  // ---------------------------------------------------------------------
  // getFormaPosFixa_Internal: what ends up in the buffer
  // ---------------------------------------------------------------------

  /** The `posFixa` buffer: the string up to its terminator and the index
      `k`. Every position past the terminator holds '\0', as `memset` left
      it, so a store at the terminator or just past it lengthens the
      string. */
  datatype Buffer = Buffer(text: string, k: nat)

  /** `posFixa[k] = c` with `k` at most the string length. */
  function StoreAt(t: string, k: nat, c: char): (r: string)
    requires k <= |t|
    ensures |r| == if k < |t| then |t| else k + 1
    ensures r[..k] == t[..k] && r[k] == c
  {
    if k < |t| then t[k := c] else t + [c]
  }

  /** The effect of one write on the buffer: `strcat` extends the string and
      leaves `k`; `posFixa[k++] = op; posFixa[k++] = ' '` overwrites from
      `k` on. */
  function Put(b: Buffer, w: Write): (r: Buffer)
    requires b.k <= |b.text|
    ensures r.k <= |r.text|
  {
    match w
    case Appended(t) => Buffer(b.text + t + " ", b.k)
    case AtCursor(c) => Buffer(StoreAt(StoreAt(b.text, b.k, c), b.k + 1, ' '), b.k + 2)
  }

  /** The buffer after the writes, from the cleared buffer on. */
  function Render(ws: seq<Write>): (b: Buffer)
    ensures b.k <= |b.text|
  {
    if ws == [] then Buffer("", 0) else Put(Render(ws[..|ws| - 1]), ws[|ws| - 1])
  }

  /** `posFixa[k] = '\0'`, then the blank before it cut off. */
  function Finish(b: Buffer): string
    requires b.k <= |b.text|
  {
    var t := b.text[..b.k];
    if b.k > 0 && t[b.k - 1] == ' ' then t[..b.k - 1] else t
  }

  /** getFormaPosFixa_Internal as written: `None` for NULL. */
  function PosFixa(s: string): Option<string> {
    match Convert(s).writes
    case None => None
    case Some(ws) => Some(Finish(Render(ws)))
  }

  /** The operators among the writes, each as a one-character token. */
  function CursorTokens(ws: seq<Write>): seq<string> {
    if ws == [] then []
    else
      var w := ws[|ws| - 1];
      CursorTokens(ws[..|ws| - 1]) + (if w.AtCursor? then [[w.op]] else [])
  }

  /** What each write was meant to add to the output: every number,
      operator and function name, in the order of the writes. */
  function Intended(ws: seq<Write>): seq<string> {
    if ws == [] then []
    else
      var w := ws[|ws| - 1];
      Intended(ws[..|ws| - 1]) + [if w.AtCursor? then [w.op] else w.text]
  }

  /** The blank-separated writes: what the converter was evidently meant to
      return, and what the corrected converter returns. */
  function PosFixaIntended(s: string): Option<string> {
    match Convert(s).writes
    case None => None
    case Some(ws) => Some(Join(Intended(ws)))
  }

  /** Up to `k`, the buffer holds the operators alone, each followed by a
      blank: every store at `k` lands over the text the appends put there,
      and whatever was appended past `k` is cut off by the terminator. */
  lemma {:induction false} RenderKeepsCursor(ws: seq<Write>)
    ensures Render(ws).text[..Render(ws).k] == Spaced(CursorTokens(ws))
    decreases |ws|
  {
    if ws != [] {
      var init, w := ws[..|ws| - 1], ws[|ws| - 1];
      RenderKeepsCursor(init);
      RenderSnoc(init, w);
      assert init + [w] == ws;
      PutKeepsCursor(Render(init), w, CursorTokens(init));
    }
  }

  /** One write keeps the text up to the cursor: an append lands past it,
      a store at the cursor adds the operator and a blank. */
  lemma PutKeepsCursor(b: Buffer, w: Write, toks: seq<string>)
    requires b.k <= |b.text| && b.text[..b.k] == Spaced(toks)
    ensures Put(b, w).text[..Put(b, w).k] == Spaced(toks + if w.AtCursor? then [[w.op]] else [])
  {
    match w
    case Appended(t) =>
      assert (b.text + t + " ")[..b.k] == b.text[..b.k];
      assert toks + [] == toks;
    case AtCursor(c) =>
      var t1 := StoreAt(b.text, b.k, c);
      var t2 := StoreAt(t1, b.k + 1, ' ');
      assert t2[..b.k + 2] == b.text[..b.k] + [c, ' '] by {
        assert t2[..b.k + 1] == t1[..b.k + 1] == b.text[..b.k] + [c];
      }
      SpacedOne(toks, [c]);
  }

  /** getFormaPosFixa_Internal returns only the operators, blank-separated:
      the numbers and function names it appends are overwritten by the
      operators stored at `k` or lie past the terminator. */
  lemma PosFixaKeepsOperators(s: string)
    ensures Convert(s).writes.Some? ==>
      PosFixa(s) == Some(Join(CursorTokens(Convert(s).writes.value)))
    ensures Convert(s).writes.None? ==> PosFixa(s).None?
  {
    if Convert(s).writes.Some? {
      var ws := Convert(s).writes.value;
      var b := Render(ws);
      RenderKeepsCursor(ws);
      DropLastSpaced(CursorTokens(ws));
      if b.k > 0 {
        var sp := Spaced(CursorTokens(ws));
        assert CursorTokens(ws) != [];
        assert sp[|sp| - 1] == ' ';
      }
    }
  }

  // ---------------------------------------------------------------------
  // The corrected output reads back token for token
  // ---------------------------------------------------------------------

  /** A write whose token the readers take back: an appended number or
      function name, or an operator stored at `k`. */
  predicate GoodWrite(w: Write) {
    match w
    case Appended(t) => Infix.IsReadable(t)
    case AtCursor(c) => IsOperator(c)
  }

  /** What the loop keeps: the stack holds '(', operators and markers, and
      every write is good. */
  predicate GoodState(q: LState) {
    (forall c <- q.stack :: Infix.IsStackSymbol(c)) && (forall w <- q.writes :: GoodWrite(w))
  }

  lemma {:induction false} WritesOfGood(popped: seq<char>)
    requires forall c <- popped :: c != '(' && Infix.IsStackSymbol(c)
    ensures forall w <- WritesOf(popped) :: GoodWrite(w)
    decreases |popped|
  {
    if popped != [] {
      var init := popped[..|popped| - 1];
      assert popped[|popped| - 1] in popped;
      assert forall c <- init :: c in popped;
      WritesOfGood(init);
    }
  }

  /** What the pop loops leave: the entries left are symbols, and the
      popped ones, none of them '(', give good writes. */
  lemma PoppedGood(st: seq<char>, st1: seq<char>)
    requires forall c <- st :: Infix.IsStackSymbol(c)
    requires st1 <= st && forall k :: |st1| <= k < |st| ==> st[k] != '('
    ensures forall c <- st1 :: Infix.IsStackSymbol(c)
    ensures forall w <- WritesOf(st[|st1|..]) :: GoodWrite(w)
  {
    assert st == st1 + st[|st1|..];
    assert forall c <- st1 :: c in st;
    forall c | c in st[|st1|..]
      ensures c != '(' && Infix.IsStackSymbol(c)
    {
      var k :| 0 <= k < |st[|st1|..]| && st[|st1|..][k] == c;
      assert st[|st1| + k] == c;
    }
    WritesOfGood(st[|st1|..]);
  }

  /** A number token: a digit or a point first. */
  lemma NumeralGood(s: string, i: nat, e: nat)
    requires i < e <= |s| && forall k :: i <= k < e ==> IsNumeral(s[k])
    ensures Infix.IsReadable(s[i..e])
  {
    var t := s[i..e];
    assert t[0] == s[i];
    assert forall k :: 0 <= k < |t| ==> t[k] == s[i + k];
  }

  lemma StepGood(s: string, q: LState)
    requires q.i < |s| && GoodState(q)
    ensures StepAt(s, q).LNext? ==> GoodState(StepAt(s, q).next)
  {
    var i, st, ws := q.i, q.stack, q.writes;
    var c := s[i];
    if c == ' ' {
    } else if IsNumeral(c) {
      NumeralGood(s, i, NumeralEnd(s, i));
    } else if IsAlpha(c) {
    } else if c == '(' {
    } else if c == ')' {
      var popped := PopToOpen(st, ws);
      PopToOpenShape(st, ws);
      PoppedGood(st, popped.0);
      if popped.0 != [] {
        assert forall c <- popped.0[..|popped.0| - 1] :: c in popped.0;
      }
    } else if IsOperator(c) {
      var popped := PopWhile(st, ws, c);
      PopWhileShape(st, ws, c);
      PoppedGood(st, popped.0);
    }
  }

  lemma {:induction false} RunGood(s: string, q: LState)
    requires q.i <= |s| && GoodState(q)
    ensures Run(s, q).writes.Some? ==> forall w <- Run(s, q).writes.value :: GoodWrite(w)
    decreases |s| - q.i
  {
    if q.i == |s| {
      if '(' !in q.stack {
        WritesOfGood(q.stack);
      }
    } else {
      StepGood(s, q);
      if StepAt(s, q).LNext? {
        RunGood(s, StepAt(s, q).next);
      }
    }
  }

  lemma {:induction false} IntendedGood(ws: seq<Write>)
    requires forall w <- ws :: GoodWrite(w)
    ensures forall t <- Intended(ws) :: IsWord(t) && KindOf(t) != Invalid
    decreases |ws|
  {
    if ws != [] {
      assert forall w <- ws[..|ws| - 1] :: w in ws;
      assert ws[|ws| - 1] in ws;
      IntendedGood(ws[..|ws| - 1]);
    }
  }

  /** The corrected converter writes every number, operator and function
      name it meets, each a token the readers classify, and splitting its
      output at the blanks gives back exactly those tokens in order. */
  lemma PosFixaIntendedReadable(s: string)
    ensures Convert(s).writes.Some? ==>
      var ts := Intended(Convert(s).writes.value);
      && (forall t <- ts :: IsWord(t) && KindOf(t) != Invalid)
      && PosFixaIntended(s) == Some(Join(ts))
      && Tokens(Join(ts)) == ts
  {
    RunGood(s, LState(0, [], []));
    if Convert(s).writes.Some? {
      IntendedGood(Convert(s).writes.value);
      TokensJoin(Intended(Convert(s).writes.value));
    }
  }

  // ---------------------------------------------------------------------
  // Only balanced parentheses and known characters are accepted
  // ---------------------------------------------------------------------

  /** The loop's bookkeeping for parentheses: each '(' read and not yet
      closed is on the stack, no prefix read went below zero, and the stack
      holds no more entries than characters read. */
  predicate Tracked(s: string, q: LState) {
    && q.i <= |s|
    && |q.stack| <= q.i
    && Infix.Opens(q.stack) == Infix.Depth(s[..q.i])
    && Infix.NeverBelow(s, q.i)
  }

  /** Reading characters other than parentheses, with at most one push. */
  lemma FlatTracked(s: string, q: LState, r: LState)
    requires q.i < r.i <= |s| && Tracked(s, q)
    requires forall k :: q.i <= k < r.i ==> s[k] != '(' && s[k] != ')'
    requires Infix.Opens(r.stack) == Infix.Opens(q.stack)
    requires |r.stack| <= |q.stack| + 1
    ensures Tracked(s, r)
  {
    Infix.DepthFlat(s, q.i, r.i);
  }

  lemma CloseTracked(s: string, q: LState)
    requires q.i < |s| <= Stacks.Capacity && s[q.i] == ')' && Tracked(s, q)
    ensures StepAt(s, q).LNext? ==> Tracked(s, StepAt(s, q).next)
  {
    var popped := PopToOpen(q.stack, q.writes);
    StepClose(s, q);
    CloseKeepsOpens(q.stack, q.writes);
    if popped.0 != [] {
      Infix.DepthStep(s, q.i);
      Infix.NeverBelowStep(s, q.i);
    }
  }

  /** The ')' loop pops no '(' and then drops the one it stops at: the
      count of '(' goes down by one, and the stack does not grow. */
  lemma CloseKeepsOpens(st: seq<char>, ws: seq<Write>)
    ensures var st1 := PopToOpen(st, ws).0;
      st1 != [] ==> Infix.Opens(st1[..|st1| - 1]) == Infix.Opens(st) - 1 && |st1| <= |st|
  {
    PopToOpenShape(st, ws);
    var st1 := PopToOpen(st, ws).0;
    if st1 != [] {
      var st2 := st1[..|st1| - 1];
      Infix.KeepsOpens(st, st1);
      assert st1 == st2 + ['('];
      Infix.CountSnoc(st2, '(');
    }
  }

  /** The operator branch of one pass. */
  lemma StepOperator(s: string, q: LState)
    requires q.i < |s| && IsOperator(s[q.i])
    ensures var popped := PopWhile(q.stack, q.writes, s[q.i]);
      StepAt(s, q) == LNext(LState(q.i + 1, PushChar(popped.0, s[q.i]), popped.1))
  {
    var c := s[q.i];
    assert c != ' ' && !IsNumeral(c) && !IsAlpha(c) && c != '(' && c != ')';
  }

  /** The other branches of one pass, each under the test that leads to
      it. */
  lemma StepBlank(s: string, q: LState)
    requires q.i < |s| && s[q.i] == ' '
    ensures StepAt(s, q) == LNext(q.(i := q.i + 1))
  {
  }

  lemma StepLetters(s: string, q: LState)
    requires q.i < |s| && IsAlpha(s[q.i])
    ensures var e := LetterEnd(s, q.i, 0);
      StepAt(s, q) == if IsFunctionName(s[q.i..e])
        then LNext(q.(i := e, stack := PushChar(q.stack, Marker(s[q.i..e]))))
        else LStop(q.stack)
  {
    assert s[q.i] != ' ' && !IsNumeral(s[q.i]);
  }

  lemma StepOpen(s: string, q: LState)
    requires q.i < |s| && s[q.i] == '('
    ensures StepAt(s, q) == LNext(q.(i := q.i + 1, stack := PushChar(q.stack, '(')))
  {
  }

  lemma StepClose(s: string, q: LState)
    requires q.i < |s| && s[q.i] == ')'
    ensures var popped := PopToOpen(q.stack, q.writes);
      StepAt(s, q) == if popped.0 == [] then LStop([])
        else LNext(LState(q.i + 1, popped.0[..|popped.0| - 1], popped.1))
  {
  }

  lemma StepUnknown(s: string, q: LState)
    requires q.i < |s| && !Known(s[q.i])
    ensures StepAt(s, q) == LStop(q.stack)
  {
  }

  lemma OperatorTracked(s: string, q: LState)
    requires q.i < |s| <= Stacks.Capacity && IsOperator(s[q.i]) && Tracked(s, q)
    ensures StepAt(s, q).LNext? ==> Tracked(s, StepAt(s, q).next)
  {
    var c := s[q.i];
    var popped := PopWhile(q.stack, q.writes, c);
    StepOperator(s, q);
    OperatorKeepsOpens(q.stack, q.writes, c);
    FlatTracked(s, q, LState(q.i + 1, popped.0 + [c], popped.1));
  }

  /** The operator loop pops no '(' and the operator is then pushed: the
      count of '(' stays, and the stack grows by at most one. */
  lemma OperatorKeepsOpens(st: seq<char>, ws: seq<Write>, c: char)
    requires |st| < Stacks.Capacity
    ensures var st1 := PopWhile(st, ws, c).0;
      && PushChar(st1, c) == st1 + [c]
      && Infix.Opens(st1 + [c]) == Infix.Opens(st) + (if c == '(' then 1 else 0)
      && |st1| <= |st|
  {
    PopWhileShape(st, ws, c);
    var st1 := PopWhile(st, ws, c).0;
    Infix.KeepsOpens(st, st1);
    Infix.CountSnoc(st1, c);
  }

  /** A blank or a number: nothing is pushed. */
  lemma PlainTracked(s: string, q: LState)
    requires q.i < |s| <= Stacks.Capacity && Tracked(s, q)
    requires s[q.i] == ' ' || IsNumeral(s[q.i])
    ensures StepAt(s, q).LNext? ==> Tracked(s, StepAt(s, q).next)
  {
    FlatTracked(s, q, StepAt(s, q).next);
  }

  /** A function name pushes its marker, which is no '('. */
  lemma WordTracked(s: string, q: LState)
    requires q.i < |s| <= Stacks.Capacity && Tracked(s, q) && IsAlpha(s[q.i])
    ensures StepAt(s, q).LNext? ==> Tracked(s, StepAt(s, q).next)
  {
    var i, st := q.i, q.stack;
    var e := LetterEnd(s, i, 0);
    if IsFunctionName(s[i..e]) {
      var r := q.(i := e, stack := PushChar(st, Marker(s[i..e])));
      assert StepAt(s, q) == LNext(r);
      Infix.CountSnoc(st, Marker(s[i..e]));
      FlatTracked(s, q, r);
    }
  }

  /** '(' is pushed and the depth goes up by one. */
  lemma OpenTracked(s: string, q: LState)
    requires q.i < |s| <= Stacks.Capacity && Tracked(s, q) && s[q.i] == '('
    ensures StepAt(s, q).LNext? ==> Tracked(s, StepAt(s, q).next)
  {
    Infix.DepthStep(s, q.i);
    Infix.NeverBelowStep(s, q.i);
    Infix.CountSnoc(q.stack, '(');
  }

  lemma StepTracked(s: string, q: LState)
    requires q.i < |s| <= Stacks.Capacity && Tracked(s, q)
    ensures StepAt(s, q).LNext? ==> Tracked(s, StepAt(s, q).next)
  {
    var c := s[q.i];
    if c == ' ' || IsNumeral(c) {
      PlainTracked(s, q);
    } else if IsAlpha(c) {
      WordTracked(s, q);
    } else if c == '(' {
      OpenTracked(s, q);
    } else if c == ')' {
      CloseTracked(s, q);
    } else if IsOperator(c) {
      OperatorTracked(s, q);
    } else {
      assert StepAt(s, q).LStop?;
    }
  }

  lemma {:induction false} RunBalanced(s: string, q: LState)
    requires |s| <= Stacks.Capacity && Tracked(s, q)
    ensures Run(s, q).writes.Some? ==> Infix.Balanced(s)
    decreases |s| - q.i
  {
    if q.i == |s| {
      assert s[..q.i] == s;
      if '(' !in q.stack {
        Infix.KeepsOpens(q.stack, []);
      }
    } else {
      StepTracked(s, q);
      if StepAt(s, q).LNext? {
        RunBalanced(s, StepAt(s, q).next);
      }
    }
  }

  /** Within the operator stack's capacity, getFormaPosFixa_Internal
      accepts only balanced parentheses: a ')' without its '(' or a '('
      left open gives NULL. */
  lemma ConvertBalanced(s: string)
    requires |s| <= Stacks.Capacity
    ensures Convert(s).writes.Some? ==> Infix.Balanced(s)
  {
    RunBalanced(s, LState(0, [], []));
  }

  /** The characters the scanner has a branch for. */
  predicate Known(c: char) {
    c == ' ' || IsNumeral(c) || IsAlpha(c) || c == '(' || c == ')' || IsOperator(c)
  }

  lemma {:induction false} RunRejects(s: string, q: LState, k: nat)
    requires q.i <= k < |s| && !Known(s[k])
    ensures Run(s, q).writes.None?
    decreases |s| - q.i
  {
    match StepAt(s, q)
    case LStop(_) =>
    case LNext(r) =>
      var c := s[q.i];
      if IsNumeral(c) {
        assert forall j :: q.i <= j < r.i ==> IsNumeral(s[j]);
      } else if IsAlpha(c) {
        assert forall j :: q.i <= j < r.i ==> IsAlpha(s[j]);
      } else {
        assert r.i == q.i + 1;
      }
      assert r.i <= k;
      RunRejects(s, r, k);
  }

  /** A character with no branch anywhere in the input (a tab, a comma, a
      '\0' inside the text) makes getFormaPosFixa_Internal return NULL. */
  lemma ConvertRejects(s: string, k: nat)
    requires k < |s| && !Known(s[k])
    ensures Convert(s).writes.None? && PosFixa(s).None? && PosFixaIntended(s).None?
  {
    RunRejects(s, LState(0, [], []), k);
  }

  // ---------------------------------------------------------------------
  // Witnesses
  // ---------------------------------------------------------------------

  /** A number at `i` of `s`, ended by a non-numeral or the end of input. */
  lemma StepNumeral(s: string, q: LState, e: nat)
    requires q.i < e <= |s| && forall k :: q.i <= k < e ==> IsNumeral(s[k])
    requires e == |s| || !IsNumeral(s[e])
    ensures StepAt(s, q) == LNext(LState(e, q.stack, q.writes + [Appended(s[q.i..e])]))
  {
    var e' := NumeralEnd(s, q.i);
    assert e' == e;
  }

  /** A number and the blank after it. */
  lemma RunNumeralSpace(s: string, q: LState, t: string)
    requires t != [] && forall k :: 0 <= k < |t| ==> IsNumeral(t[k])
    requires q.i + |t| < |s| && s[q.i..q.i + |t|] == t && s[q.i + |t|] == ' '
    ensures Run(s, q) == Run(s, LState(q.i + |t| + 1, q.stack, q.writes + [Appended(t)]))
  {
    var e := q.i + |t|;
    forall k | q.i <= k < e ensures IsNumeral(s[k]) {
      assert s[q.i..e][k - q.i] == s[k];
    }
    StepNumeral(s, q, e);
    var r := LState(e, q.stack, q.writes + [Appended(t)]);
    assert StepAt(s, r) == LNext(r.(i := e + 1));
  }

  /** An operator and the blank after it, once the operator loop has left
      the stack `st` and the writes `ws`. */
  lemma RunOperatorSpace(s: string, q: LState, st: seq<char>, ws: seq<Write>)
    requires q.i + 1 < |s| && IsOperator(s[q.i]) && s[q.i + 1] == ' '
    requires PopWhile(q.stack, q.writes, s[q.i]) == (st, ws) && |st| < Stacks.Capacity
    ensures Run(s, q) == Run(s, LState(q.i + 2, st + [s[q.i]], ws))
  {
    var c := s[q.i];
    assert !IsNumeral(c) && !IsAlpha(c) && c != ' ' && c != '(' && c != ')';
    var r := LState(q.i + 1, st + [c], ws);
    assert StepAt(s, q) == LNext(r);
    assert StepAt(s, r) == LNext(r.(i := q.i + 2));
  }

  /** A number at the end of the input: the stack is emptied after it. */
  lemma RunLastNumeral(s: string, q: LState, t: string)
    requires t != [] && forall k :: 0 <= k < |t| ==> IsNumeral(t[k])
    requires q.i + |t| == |s| && s[q.i..] == t
    ensures Run(s, q) == Flush(q.stack, q.writes + [Appended(t)])
  {
    assert s[q.i..|s|] == t;
    forall k | q.i <= k < |s| ensures IsNumeral(s[k]) {
      assert s[q.i..][k - q.i] == s[k];
    }
    StepNumeral(s, q, |s|);
    var r := LState(|s|, q.stack, q.writes + [Appended(t)]);
    assert Run(s, r) == Flush(r.stack, r.writes);
  }

  /** One operator left on the stack is stored at `k` last. */
  lemma FlushOne(c: char, ws: seq<Write>)
    requires IsOperator(c)
    ensures Flush([c], ws) == LConv(Some(ws + [AtCursor(c)]), [])
  {
    assert [c][..0] == [];
  }

  lemma Sum1()
    ensures Run("3 + 4", LState(0, [], [])) == Run("3 + 4", LState(4, ['+'], [Appended("3")]))
  {
    var s := "3 + 4";
    RunNumeralSpace(s, LState(0, [], []), "3");
    assert [] + [Appended("3")] == [Appended("3")];
    PopWhileDone([], [Appended("3")], '+');
    RunOperatorSpace(s, LState(2, [], [Appended("3")]), [], [Appended("3")]);
    assert [] + ['+'] == ['+'];
  }

  lemma Sum2()
    ensures Run("3 + 4", LState(4, ['+'], [Appended("3")])).writes ==
      Some([Appended("3"), Appended("4"), AtCursor('+')])
  {
    RunLastNumeral("3 + 4", LState(4, ['+'], [Appended("3")]), "4");
    FlushOne('+', [Appended("3"), Appended("4")]);
    assert [Appended("3")] + [Appended("4")] == [Appended("3"), Appended("4")];
    assert [Appended("3"), Appended("4")] + [AtCursor('+')] == [Appended("3"), Appended("4"), AtCursor('+')];
  }

  /** "3 + 4": two appends and one store at `k`. */
  lemma SumWrites()
    ensures Convert("3 + 4").writes == Some([Appended("3"), Appended("4"), AtCursor('+')])
  {
    Sum1();
    Sum2();
  }

  /** The operators of the writes of "3 + 4", and all of its tokens. */
  lemma SumTokens()
    ensures CursorTokens([Appended("3"), Appended("4"), AtCursor('+')]) == ["+"]
    ensures Intended([Appended("3"), Appended("4"), AtCursor('+')]) == ["3", "4", "+"]
  {
    var p1 := [Appended("3")];
    var p2 := p1 + [Appended("4")];
    var ws := p2 + [AtCursor('+')];
    assert ws == [Appended("3"), Appended("4"), AtCursor('+')];
    assert ws[..2] == p2 && p2[..1] == p1 && p1[..0] == [];
    assert CursorTokens(p1) == [] && Intended(p1) == ["3"];
    assert CursorTokens(p2) == [] && Intended(p2) == ["3", "4"];
    assert ["3", "4"] + ["+"] == ["3", "4", "+"];
  }

  lemma SumJoin()
    ensures Join(["+"]) == "+"
    ensures Join(["3", "4", "+"]) == "3 4 +"
  {
    assert Join(["4", "+"]) == "4 +";
  }

  /** "3 + 4" comes out of getFormaPosFixa_Internal as "+", where "3 4 +"
      was meant: the store of '+' at `k` = 0 overwrites the "3 " appended
      first, and the terminator at `k` = 2 cuts off the "4 ". */
  lemma SumLosesOperands()
    ensures PosFixa("3 + 4") == Some("+")
    ensures PosFixaIntended("3 + 4") == Some("3 4 +")
  {
    SumWrites();
    SumTokens();
    PosFixaKeepsOperators("3 + 4");
    SumJoin();
  }

  /** "2 ^ 3 ^ 2" up to its second operator: the first '^' is pushed. */
  lemma TowerFirst()
    ensures Run("2 ^ 3 ^ 2", LState(0, [], [])) == Run("2 ^ 3 ^ 2", LState(4, ['^'], [Appended("2")]))
  {
    RunNumeralSpace("2 ^ 3 ^ 2", LState(0, [], []), "2");
    assert [] + [Appended("2")] == [Appended("2")];
    PopWhileDone([], [Appended("2")], '^');
    RunOperatorSpace("2 ^ 3 ^ 2", LState(2, [], [Appended("2")]), [], [Appended("2")]);
    assert [] + ['^'] == ['^'];
  }

  lemma TowerOperand()
    ensures Run("2 ^ 3 ^ 2", LState(4, ['^'], [Appended("2")])) ==
      Run("2 ^ 3 ^ 2", LState(6, ['^'], [Appended("2"), Appended("3")]))
  {
    RunNumeralSpace("2 ^ 3 ^ 2", LState(4, ['^'], [Appended("2")]), "3");
    assert [Appended("2")] + [Appended("3")] == [Appended("2"), Appended("3")];
  }

  /** The second '^' pops the first before it is pushed. */
  lemma TowerSecond()
    ensures Run("2 ^ 3 ^ 2", LState(6, ['^'], [Appended("2"), Appended("3")])) ==
      Run("2 ^ 3 ^ 2", LState(8, ['^'], [Appended("2"), Appended("3"), AtCursor('^')]))
  {
    var ws := [Appended("2"), Appended("3"), AtCursor('^')];
    PopWhileStep(['^'], [Appended("2"), Appended("3")], '^');
    assert ['^'][..0] == [];
    assert [Appended("2"), Appended("3")] + [WriteOf('^')] == ws;
    PopWhileDone([], ws, '^');
    RunOperatorSpace("2 ^ 3 ^ 2", LState(6, ['^'], [Appended("2"), Appended("3")]), [], ws);
    assert [] + ['^'] == ['^'];
  }

  lemma TowerLast()
    ensures Run("2 ^ 3 ^ 2", LState(8, ['^'], [Appended("2"), Appended("3"), AtCursor('^')])).writes ==
      Some([Appended("2"), Appended("3"), AtCursor('^'), Appended("2"), AtCursor('^')])
  {
    var ws := [Appended("2"), Appended("3"), AtCursor('^')];
    RunLastNumeral("2 ^ 3 ^ 2", LState(8, ['^'], ws), "2");
    FlushOne('^', ws + [Appended("2")]);
    assert ws + [Appended("2")] + [AtCursor('^')] ==
      [Appended("2"), Appended("3"), AtCursor('^'), Appended("2"), AtCursor('^')];
  }

  lemma TowerWrites()
    ensures Convert("2 ^ 3 ^ 2").writes ==
      Some([Appended("2"), Appended("3"), AtCursor('^'), Appended("2"), AtCursor('^')])
  {
    TowerFirst();
    TowerOperand();
    TowerSecond();
    TowerLast();
  }

  lemma TowerTokens()
    ensures var ws := [Appended("2"), Appended("3"), AtCursor('^'), Appended("2"), AtCursor('^')];
      CursorTokens(ws) == ["^", "^"] && Intended(ws) == ["2", "3", "^", "2", "^"]
  {
    var p1 := [Appended("2")];
    var p2 := p1 + [Appended("3")];
    var p3 := p2 + [AtCursor('^')];
    var p4 := p3 + [Appended("2")];
    var ws := p4 + [AtCursor('^')];
    assert ws == [Appended("2"), Appended("3"), AtCursor('^'), Appended("2"), AtCursor('^')];
    assert ws[..4] == p4 && p4[..3] == p3 && p3[..2] == p2 && p2[..1] == p1 && p1[..0] == [];
    assert CursorTokens(p1) == [] && Intended(p1) == ["2"];
    assert CursorTokens(p2) == [] && Intended(p2) == ["2", "3"];
    assert CursorTokens(p3) == ["^"] && Intended(p3) == ["2", "3", "^"];
    assert CursorTokens(p4) == ["^"] && Intended(p4) == ["2", "3", "^", "2"];
    assert ["^"] + ["^"] == ["^", "^"];
    assert ["2", "3", "^", "2"] + ["^"] == ["2", "3", "^", "2", "^"];
  }

  lemma TowerJoin()
    ensures Join(["^", "^"]) == "^ ^"
    ensures Join(["2", "3", "^", "2", "^"]) == "2 3 ^ 2 ^"
  {
    assert Join(["2", "^"]) == "2 ^";
    assert Join(["^", "2", "^"]) == "^ 2 ^";
  }

  /** In this converter "2 ^ 3 ^ 2" groups to the left: the corrected
      output is "2 3 ^ 2 ^", and the output as written keeps only "^ ^". */
  lemma PowerGroupsLeft()
    ensures PosFixaIntended("2 ^ 3 ^ 2") == Some("2 3 ^ 2 ^")
    ensures PosFixa("2 ^ 3 ^ 2") == Some("^ ^")
  {
    var ws := [Appended("2"), Appended("3"), AtCursor('^'), Appended("2"), AtCursor('^')];
    TowerWrites();
    TowerTokens();
    PosFixaKeepsOperators("2 ^ 3 ^ 2");
    assert PosFixa("2 ^ 3 ^ 2") == Some(Join(["^", "^"]));
    assert PosFixaIntended("2 ^ 3 ^ 2") == Some(Join(["2", "3", "^", "2", "^"]));
    TowerJoin();
  }

  // ---------------------------------------------------------------------
  // The process-wide stacks and the three operations as the C code runs them
  // ---------------------------------------------------------------------

  lemma RenderSnoc(ws: seq<Write>, w: Write)
    ensures Render(ws + [w]) == Put(Render(ws), w)
  {
    assert (ws + [w])[..|ws|] == ws;
  }

  /** One round of the ')' loop: the top entry, not '(', is written. */
  lemma PopToOpenStep(st: seq<char>, ws: seq<Write>)
    requires st != [] && st[|st| - 1] != '('
    ensures PopToOpen(st, ws) == PopToOpen(st[..|st| - 1], ws + [WriteOf(st[|st| - 1])])
  {
  }

  /** One round of the operator loop: the top entry binds at least as
      tightly and is written. */
  lemma PopWhileStep(st: seq<char>, ws: seq<Write>, op: char)
    requires st != [] && PopsBefore(st[|st| - 1], op)
    ensures PopWhile(st, ws, op) == PopWhile(st[..|st| - 1], ws + [WriteOf(st[|st| - 1])], op)
  {
  }

  /** The ')' loop stops at '(' or on an empty stack. */
  lemma PopToOpenDone(st: seq<char>, ws: seq<Write>)
    requires st == [] || st[|st| - 1] == '('
    ensures PopToOpen(st, ws) == (st, ws)
  {
  }

  /** The operator loop stops at an entry that does not bind as tightly. */
  lemma PopWhileDone(st: seq<char>, ws: seq<Write>, op: char)
    requires st == [] || !PopsBefore(st[|st| - 1], op)
    ensures PopWhile(st, ws, op) == (st, ws)
  {
  }

  /** One round of the final loop: the top entry, not '(', is written. */
  lemma FlushOpen(st: seq<char>, ws: seq<Write>)
    requires st != [] && st[|st| - 1] == '('
    ensures Flush(st, ws) == LConv(None, st[..|st| - 1])
  {
  }

  lemma FlushStep(st: seq<char>, ws: seq<Write>)
    requires st != [] && st[|st| - 1] != '('
    ensures Flush(st, ws) == Flush(st[..|st| - 1], ws + [WriteOf(st[|st| - 1])])
  {
  }

  /** The end of a conversion whose writes are `ws`. */
  lemma PosFixaOf(s: string, ws: seq<Write>)
    requires Convert(s).writes == Some(ws)
    ensures PosFixa(s) == Some(Finish(Render(ws)))
  {
  }

  class Globals {
    /** pilhaChar / topoChar */
    const chars: Stacks.Stack<char>
    /** pilhaFloat / topoFloat */
    const floats: Stacks.Stack<real>
    /** pilhaString / topoString */
    const strings: Stacks.Stack<string>

    ghost predicate Valid()
      reads this, chars, floats, strings
    {
      chars.Valid() && floats.Valid() && strings.Valid()
    }

    /** The static stacks at program start: `topo* = -1`. */
    constructor ()
      ensures Valid() && fresh(chars) && fresh(floats) && fresh(strings)
      ensures fresh(chars.data) && fresh(floats.data) && fresh(strings.data)
      ensures chars.Contents() == [] && floats.Contents() == [] && strings.Contents() == []
    {
      chars := new Stacks.Stack<char>();
      floats := new Stacks.Stack<real>();
      strings := new Stacks.Stack<string>();
    }

    // -------------------------------------------------------------------
    // getFormaPosFixa_Internal
    // -------------------------------------------------------------------

    /** The number loop: digits and points. */
    static method ReadNumeral(s: string, i0: nat) returns (e: nat)
      requires i0 <= |s|
      ensures e == NumeralEnd(s, i0)
    {
      e := i0;
      while e < |s| && IsNumeral(s[e])
        invariant i0 <= e <= |s| && NumeralEnd(s, e) == NumeralEnd(s, i0)
        decreases |s| - e
      {
        e := e + 1;
      }
    }

    /** The word loop: letters while `token_str` has room. */
    static method ReadLetters(s: string, i0: nat) returns (e: nat)
      requires i0 <= |s|
      ensures e == LetterEnd(s, i0, 0)
    {
      var i, j := i0, 0;
      while j < LetterLimit && i < |s| && IsAlpha(s[i])
        invariant i0 <= i <= |s| && j <= LetterLimit && i - i0 == j
        invariant LetterEnd(s, i, j) == LetterEnd(s, i0, 0)
        decreases |s| - i
      {
        i, j := i + 1, j + 1;
      }
      return i;
    }

    /** The output of a popped entry: `posFixa[k++] = op; posFixa[k++] = ' '`
        for an operator, `strcat` of the name and a blank for a marker. */
    static method WriteEntry(text0: string, k0: nat, op: char, ghost ws: seq<Write>)
      returns (text: string, k: nat)
      requires Buffer(text0, k0) == Render(ws)
      ensures Buffer(text, k) == Render(ws + [WriteOf(op)])
    {
      RenderSnoc(ws, WriteOf(op));
      text, k := text0, k0;
      if IsMarker(op) {
        text := text + MarkerName(op) + " ";
      } else {
        text := if k < |text| then text[k := op] else text + [op];
        k := k + 1;
        text := if k < |text| then text[k := ' '] else text + [' '];
        k := k + 1;
      }
    }

    /** One round of the ')' and operator loops: the top entry is popped
        and written. */
    method WriteTop(text0: string, k0: nat, ghost ws0: seq<Write>)
      returns (text: string, k: nat, ghost ws: seq<Write>)
      requires chars.Valid() && chars.Contents() != [] && Buffer(text0, k0) == Render(ws0)
      modifies chars
      ensures chars.Valid() && Buffer(text, k) == Render(ws)
      ensures var st := old(chars.Contents());
        chars.Contents() == st[..|st| - 1] && ws == ws0 + [WriteOf(st[|st| - 1])]
    {
      ghost var before := chars.Contents();
      var op := chars.Pop();
      text, k := WriteEntry(text0, k0, op.value, ws0);
      ws := ws0 + [WriteOf(op.value)];
    }

    /** The loop of the ')' branch. */
    method PopToOpenLoop(text0: string, k0: nat, ghost ws0: seq<Write>)
      returns (text: string, k: nat, ghost ws: seq<Write>)
      requires chars.Valid() && Buffer(text0, k0) == Render(ws0)
      modifies chars
      ensures chars.Valid() && Buffer(text, k) == Render(ws)
      ensures (chars.Contents(), ws) == PopToOpen(old(chars.Contents()), ws0)
    {
      text, k, ws := text0, k0, ws0;
      while !chars.IsEmpty() && chars.Peek() != Some('(')
        invariant chars.Valid() && Buffer(text, k) == Render(ws)
        invariant PopToOpen(chars.Contents(), ws) == PopToOpen(old(chars.Contents()), ws0)
        decreases chars.top
      {
        ghost var st := chars.Contents();
        PopToOpenStep(st, ws);
        text, k, ws := WriteTop(text, k, ws);
        assert chars.Contents() == st[..|st| - 1];
      }
      PopToOpenDone(chars.Contents(), ws);
    }

    /** The loop of the operator branch. */
    method PopWhileLoop(text0: string, k0: nat, ghost ws0: seq<Write>, c: char)
      returns (text: string, k: nat, ghost ws: seq<Write>)
      requires chars.Valid() && Buffer(text0, k0) == Render(ws0)
      modifies chars
      ensures chars.Valid() && Buffer(text, k) == Render(ws)
      ensures (chars.Contents(), ws) == PopWhile(old(chars.Contents()), ws0, c)
    {
      text, k, ws := text0, k0, ws0;
      while !chars.IsEmpty() && PopsBefore(chars.Peek().value, c)
        invariant chars.Valid() && Buffer(text, k) == Render(ws)
        invariant PopWhile(chars.Contents(), ws, c) == PopWhile(old(chars.Contents()), ws0, c)
        decreases chars.top
      {
        PopWhileStep(chars.Contents(), ws, c);
        text, k, ws := WriteTop(text, k, ws);
      }
      PopWhileDone(chars.Contents(), ws, c);
    }

    /** The operator branch: the loop, then the push of the operator (a
        refused push only prints a message). */
    method PushOperator(text0: string, k0: nat, ghost ws0: seq<Write>, c: char)
      returns (text: string, k: nat, ghost ws: seq<Write>)
      requires chars.Valid() && Buffer(text0, k0) == Render(ws0)
      modifies chars, chars.data
      ensures chars.Valid() && Buffer(text, k) == Render(ws)
      ensures var popped := PopWhile(old(chars.Contents()), ws0, c);
        chars.Contents() == PushChar(popped.0, c) && ws == popped.1
    {
      text, k, ws := PopWhileLoop(text0, k0, ws0, c);
      var _ := chars.Push(c);
    }

    /** One round of the main loop at position `i0`. */
    method PosFixaStep(s: string, i0: nat, text0: string, k0: nat, ghost ws0: seq<Write>)
      returns (stop: bool, i: nat, text: string, k: nat, ghost ws: seq<Write>)
      requires chars.Valid() && i0 < |s| && Buffer(text0, k0) == Render(ws0)
      modifies chars, chars.data
      ensures chars.Valid() && Buffer(text, k) == Render(ws)
      ensures var r := StepAt(s, LState(i0, old(chars.Contents()), ws0));
        if stop then r == LStop(chars.Contents()) else r == LNext(LState(i, chars.Contents(), ws))
    {
      ghost var q := LState(i0, chars.Contents(), ws0);
      i, text, k, ws := i0, text0, k0, ws0;
      var c := s[i];
      if c == ' ' {
        StepBlank(s, q);
        i := i + 1;
      } else if IsNumeral(c) {
        var e := ReadNumeral(s, i);
        StepNumeral(s, q, e);
        RenderSnoc(ws, Appended(s[i..e]));
        text, ws := text + s[i..e] + " ", ws + [Appended(s[i..e])];
        i := e;
      } else if IsAlpha(c) {
        var e := ReadLetters(s, i);
        StepLetters(s, q);
        if !IsFunctionName(s[i..e]) {
          return true, i, text, k, ws;
        }
        var _ := chars.Push(Marker(s[i..e]));
        i := e;
      } else if c == '(' {
        StepOpen(s, q);
        var _ := chars.Push('(');
        i := i + 1;
      } else if c == ')' {
        StepClose(s, q);
        text, k, ws := PopToOpenLoop(text, k, ws);
        if chars.IsEmpty() {
          return true, i, text, k, ws;
        }
        var _ := chars.Pop();
        i := i + 1;
      } else if IsOperator(c) {
        StepOperator(s, q);
        text, k, ws := PushOperator(text, k, ws, c);
        i := i + 1;
      } else {
        StepUnknown(s, q);
        return true, i, text, k, ws;
      }
      stop := false;
    }

    /** The final loop: every entry is written; a '(' found ends the
        conversion with NULL. */
    method FlushLoop(text0: string, k0: nat, ghost ws0: seq<Write>)
      returns (ok: bool, text: string, k: nat, ghost ws: seq<Write>)
      requires chars.Valid() && Buffer(text0, k0) == Render(ws0)
      modifies chars
      ensures chars.Valid() && Buffer(text, k) == Render(ws)
      ensures Flush(old(chars.Contents()), ws0) == if ok then LConv(Some(ws), []) else LConv(None, chars.Contents())
      ensures ok ==> chars.Contents() == []
    {
      text, k, ws := text0, k0, ws0;
      while !chars.IsEmpty()
        invariant chars.Valid() && Buffer(text, k) == Render(ws)
        invariant Flush(chars.Contents(), ws) == Flush(old(chars.Contents()), ws0)
        decreases chars.top
      {
        ghost var before, ws1 := chars.Contents(), ws;
        var open;
        open, text, k, ws := FlushEntry(text, k, ws);
        if open {
          FlushOpen(before, ws1);
          return false, text, k, ws;
        }
        FlushStep(before, ws1);
      }
      return true, text, k, ws;
    }

    /** One round of the final loop: the top entry is popped, and written
        unless it is a '('. */
    method FlushEntry(text0: string, k0: nat, ghost ws0: seq<Write>)
      returns (open: bool, text: string, k: nat, ghost ws: seq<Write>)
      requires chars.Valid() && chars.Contents() != [] && Buffer(text0, k0) == Render(ws0)
      modifies chars
      ensures chars.Valid() && Buffer(text, k) == Render(ws)
      ensures var st := old(chars.Contents());
        && chars.Contents() == st[..|st| - 1]
        && (open <==> st[|st| - 1] == '(')
        && ws == if open then ws0 else ws0 + [WriteOf(st[|st| - 1])]
    {
      var op := chars.Pop();
      if op.value == '(' {
        return true, text0, k0, ws0;
      }
      text, k := WriteEntry(text0, k0, op.value, ws0);
      open, ws := false, ws0 + [WriteOf(op.value)];
    }

    /** getFormaPosFixa_Internal: the text left in `posFixa`, or `None` for
        NULL; the operator stack is left as the conversion leaves it. */
    method GetFormaPosFixa(s: string) returns (r: Option<string>)
      requires Valid()
      modifies chars, chars.data
      ensures Valid()
      ensures r == PosFixa(s)
      ensures chars.Contents() == Convert(s).stack
    {
      chars.Clear();
      var text: string := "";
      var k: nat := 0;
      ghost var ws: seq<Write> := [];
      var i: nat := 0;
      while i < |s|
        invariant chars.Valid() && i <= |s| && Buffer(text, k) == Render(ws)
        invariant Run(s, LState(i, chars.Contents(), ws)) == Convert(s)
        decreases |s| - i
      {
        var stop;
        stop, i, text, k, ws := PosFixaStep(s, i, text, k, ws);
        if stop {
          return None;
        }
      }
      assert Run(s, LState(i, chars.Contents(), ws)) == Flush(chars.Contents(), ws);
      var ok;
      ok, text, k, ws := FlushLoop(text, k, ws);
      if !ok {
        return None;
      }
      PosFixaOf(s, ws);
      var out := text[..k];
      if k > 0 && out[k - 1] == ' ' {
        out := out[..k - 1];
      }
      return Some(out);
    }
  
    // -------------------------------------------------------------------
    // getValor
    // -------------------------------------------------------------------

    /** One token of the evaluation loop: `false` when getValor returns NAN,
        the value stack then empty. */
    method ValorToken(m: Libm, t: string, ghost rest: seq<string>) returns (go: bool)
      requires floats.Valid() && t != []
      modifies floats, floats.data
      ensures floats.Valid()
      ensures var before := ValorFrom(m, [t] + rest, old(floats.Contents()));
        if go then before == ValorFrom(m, rest, floats.Contents())
        else before == None && floats.Contents() == []
    {
      assert ([t] + rest)[0] == t && ([t] + rest)[1..] == rest;
      if IsDigit(t[0]) || (t[0] == '-' && |t| > 1 && IsDigit(t[1])) || (t[0] == '.' && |t| > 1 && IsDigit(t[1])) {
        var _ := floats.Push(Atof(t));
        return true;
      } else if IsOperator(t[0]) && |t| == 1 {
        go := ValorOperator(m, t, rest);
      } else if IsFunctionName(t) {
        go := ValorCall(m, t, rest);
      } else {
        floats.Clear();
        return false;
      }
    }

    /** An operator token: the two values on top are popped and the result
        pushed; a missing operand or a NAN result ends with NAN. */
    method ValorOperator(m: Libm, t: string, ghost rest: seq<string>) returns (go: bool)
      requires floats.Valid() && LegacyKind(t) == Operator
      modifies floats, floats.data
      ensures floats.Valid()
      ensures var before := ValorFrom(m, [t] + rest, old(floats.Contents()));
        if go then before == ValorFrom(m, rest, floats.Contents())
        else before == None && floats.Contents() == []
    {
      ghost var st := floats.Contents();
      assert ([t] + rest)[0] == t && ([t] + rest)[1..] == rest;
      var op2 := floats.Pop();
      if op2.None? {
        return false;
      }
      var op1 := floats.Pop();
      if op1.None? {
        return false;
      }
      assert st == floats.Contents() + [op1.value, op2.value];
      var res := Operate(m, t[0], op2.value, op1.value);
      if res.None? {
        floats.Clear();
        return false;
      }
      var _ := floats.Push(res.value);
      return true;
    }

    /** A function name: the value on top is popped and the result pushed;
        a missing argument or a NAN result ends with NAN. */
    method ValorCall(m: Libm, t: string, ghost rest: seq<string>) returns (go: bool)
      requires floats.Valid() && LegacyKind(t) == Function
      modifies floats, floats.data
      ensures floats.Valid()
      ensures var before := ValorFrom(m, [t] + rest, old(floats.Contents()));
        if go then before == ValorFrom(m, rest, floats.Contents())
        else before == None && floats.Contents() == []
    {
      ghost var st := floats.Contents();
      assert ([t] + rest)[0] == t && ([t] + rest)[1..] == rest;
      var op1 := floats.Pop();
      if op1.None? {
        return false;
      }
      assert st == floats.Contents() + [op1.value];
      var res := ApplyFunction(m, t, op1.value);
      if res.None? {
        floats.Clear();
        return false;
      }
      var _ := floats.Push(res.value);
      return true;
    }

    /** getValor: the value, or `None` for NAN; the value stack is cleared
        on entry and empty again on every exit. */
    method GetValor(m: Libm, text: string) returns (r: Option<real>)
      requires Valid()
      modifies floats, floats.data
      ensures Valid()
      ensures r == Valor(m, text)
      ensures floats.Contents() == []
    {
      floats.Clear();
      var toks := Tokens(text);
      var n := 0;
      while n < |toks|
        invariant floats.Valid() && n <= |toks|
        invariant ValorFrom(m, toks[n..], floats.Contents()) == Valor(m, text)
        decreases |toks| - n
      {
        assert toks[n] in toks && toks[n..] == [toks[n]] + toks[n + 1..];
        var go := ValorToken(m, toks[n], toks[n + 1..]);
        if !go {
          return None;
        }
        n := n + 1;
      }
      assert toks[n..] == [];
      r := ValorResult();
    }

    /** The end of getValor: a single value left is the result, anything
        else is NAN; the stack is cleared. */
    method ValorResult() returns (r: Option<real>)
      requires floats.Valid()
      modifies floats, floats.data
      ensures floats.Valid() && floats.Contents() == []
      ensures var st := old(floats.Contents());
        r == if |st| == 1 then Some(st[0]) else None
    {
      if !floats.IsEmpty() && floats.top == 0 {
        r := floats.Pop();
      } else {
        r := None;
      }
      floats.Clear();
    }

    // -------------------------------------------------------------------
    // getFormaInFixa
    // -------------------------------------------------------------------

    /** One token of the rebuilding loop: `false` when getFormaInFixa returns
        NULL, the fragment stack then drained. */
    method InFixaToken(t: string, ghost rest: seq<string>) returns (go: bool)
      requires strings.Valid() && t != []
      modifies strings, strings.data
      ensures strings.Valid()
      ensures var before := InFixaFrom([t] + rest, old(strings.Contents()));
        if go then before == InFixaFrom(rest, strings.Contents())
        else before == None && strings.Contents() == []
    {
      ghost var st := strings.Contents();
      assert ([t] + rest)[0] == t && ([t] + rest)[1..] == rest;
      if IsDigit(t[0]) || (t[0] == '-' && |t| > 1 && IsDigit(t[1])) || (t[0] == '.' && |t| > 1 && IsDigit(t[1])) {
        var _ := strings.Push(t);
        return true;
      } else if IsOperator(t[0]) && |t| == 1 {
        var op2 := strings.Pop();
        if op2.None? {
          strings.Drain();
          return false;
        }
        var op1 := strings.Pop();
        if op1.None? {
          strings.Drain();
          return false;
        }
        assert st == strings.Contents() + [op1.value, op2.value];
        var _ := strings.Push(Parenthesize(op1.value, t, op2.value));
        return true;
      } else if IsFunctionName(t) {
        var op1 := strings.Pop();
        if op1.None? {
          strings.Drain();
          return false;
        }
        assert st == strings.Contents() + [op1.value];
        var _ := strings.Push(Call(t, op1.value));
        return true;
      } else {
        strings.Drain();
        return false;
      }
    }

    /** getFormaInFixa: the parenthesised infix text, "" when anything but
        one fragment is left, `None` for NULL; the fragment stack is drained
        on entry and on every exit. */
    method GetFormaInFixa(text: string) returns (r: Option<string>)
      requires Valid()
      modifies strings, strings.data
      ensures Valid()
      ensures r == InFixa(text)
      ensures strings.Contents() == []
    {
      strings.Drain();
      var toks := Tokens(text);
      var n := 0;
      while n < |toks|
        invariant strings.Valid() && n <= |toks|
        invariant InFixaFrom(toks[n..], strings.Contents()) == InFixa(text)
        decreases |toks| - n
      {
        assert toks[n] in toks && toks[n..] == [toks[n]] + toks[n + 1..];
        var go := InFixaToken(toks[n], toks[n + 1..]);
        if !go {
          return None;
        }
        n := n + 1;
      }
      assert toks[n..] == [];
      if !strings.IsEmpty() && strings.top == 0 {
        r := strings.Pop();
      } else {
        r := Some("");
      }
      strings.Drain();
    }
  }
}
