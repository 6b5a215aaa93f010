/** The two readers of postfix text in `expressao.h`: the evaluator
    (`calcular_valor_posfixo`) and the rebuilder of a fully parenthesised
    infix string (`converter_posfixo_para_infixo`), as functions over the
    token sequence `strtok` delivers, together with the operand-count
    discipline both of them enforce. */
module Postfix {
  import opened Wrappers
  import opened CType
  import opened Symbols
  import opened Arith
  import opened Text
  import Stacks

  /** CalcStatus */
  datatype Status = Success | SyntaxError | MathError | MemoryError | UnknownError

  /** What an evaluation gives its caller: a value, or the status of the
      error that ended it. */
  datatype Outcome = Ok(value: real) | Fail(status: Status)

  function StatusOf(o: Outcome): Status {
    if o.Ok? then Success else o.status
  }

  /** How a token is read; the tests are made in this order. */
  datatype Kind = Number | Operator | Function | Invalid

  /** A number starts with a digit, with a '.', or with a '-' that is not
      the whole token. */
  predicate IsNumberToken(t: string) {
    t != [] && (IsDigit(t[0]) || (t[0] == '-' && |t| > 1) || t[0] == '.')
  }

  /** One operator character and nothing else. */
  predicate IsOperatorToken(t: string) {
    |t| == 1 && IsOperator(t[0])
  }

  function KindOf(t: string): (k: Kind)
    ensures k == Number <==> IsNumberToken(t)
    ensures k == Operator <==> !IsNumberToken(t) && IsOperatorToken(t)
    ensures k == Function <==> IsFunctionName(t)
  {
    if IsNumberToken(t) then Number
    else if IsOperatorToken(t) then Operator
    else if IsFunctionName(t) then Function
    else Invalid
  }

  // ---------------------------------------------------------------------
  // The operand-count discipline, stated on counts alone
  // ---------------------------------------------------------------------

  /** The number of operands left after the tokens, starting with `h`:
      a number adds one, an operator takes two and gives one back, a
      function takes one and gives one back. `None` when an operator or a
      function finds too few operands or a token is not valid. */
  function Height(toks: seq<string>, h: nat): Option<nat>
    decreases |toks|
  {
    if toks == [] then Some(h)
    else match KindOf(toks[0])
      case Number => Height(toks[1..], h + 1)
      case Operator => if h < 2 then None else Height(toks[1..], h - 1)
      case Function => if h < 1 then None else Height(toks[1..], h)
      case Invalid => None
  }

  /** A well-formed postfix expression leaves exactly one operand. */
  predicate WellFormed(toks: seq<string>) {
    Height(toks, 0) == Some(1)
  }

  /** Every number is pushed while fewer than `Capacity` operands wait. */
  predicate Fits(toks: seq<string>, h: nat)
    decreases |toks|
  {
    toks == [] ||
    match KindOf(toks[0])
    case Number => h < Stacks.Capacity && Fits(toks[1..], h + 1)
    case Operator => h < 2 || Fits(toks[1..], h - 1)
    case Function => h < 1 || Fits(toks[1..], h)
    case Invalid => true
  }

  // ---------------------------------------------------------------------
  // calcular_valor_posfixo
  // ---------------------------------------------------------------------

  /** The outcome of an evaluation and the value stack it leaves. */
  datatype EvalRun = EvalRun(outcome: Outcome, stack: seq<real>)

  /** Evaluation of the remaining tokens over the value stack `st`. A
      binary operator pops its right operand, then its left one; a missing
      operand, an invalid token and anything but one value at the end are
      syntax errors; a refused push is a memory error; a NAN result is a
      math error. */
  function EvalFrom(m: Libm, toks: seq<string>, st: seq<real>): (r: EvalRun)
    ensures r.outcome.Fail? ==> r.outcome.status in {SyntaxError, MathError, MemoryError}
    ensures r.outcome.Ok? ==> r.stack == []
    decreases |toks|
  {
    if toks == [] then
      if st == [] then EvalRun(Fail(SyntaxError), [])
      else if |st| > 1 then EvalRun(Fail(SyntaxError), st[..|st| - 1])
      else EvalRun(Ok(st[0]), [])
    else
      var t := toks[0];
      match KindOf(t)
      case Number =>
        if |st| >= Stacks.Capacity then EvalRun(Fail(MemoryError), st)
        else EvalFrom(m, toks[1..], st + [Atof(t)])
      case Operator =>
        if |st| < 2 then EvalRun(Fail(SyntaxError), [])
        else
          var rest := st[..|st| - 2];
          match Operate(m, t[0], st[|st| - 1], st[|st| - 2]) {
            case None => EvalRun(Fail(MathError), rest)
            case Some(v) =>
              if |rest| >= Stacks.Capacity then EvalRun(Fail(MemoryError), rest)
              else EvalFrom(m, toks[1..], rest + [v])
          }
      case Function =>
        if st == [] then EvalRun(Fail(SyntaxError), [])
        else
          var rest := st[..|st| - 1];
          match ApplyFunction(m, t, st[|st| - 1]) {
            case None => EvalRun(Fail(MathError), rest)
            case Some(v) =>
              if |rest| >= Stacks.Capacity then EvalRun(Fail(MemoryError), rest)
              else EvalFrom(m, toks[1..], rest + [v])
          }
      case Invalid => EvalRun(Fail(SyntaxError), st)
  }

  /** calcular_valor_posfixo on a postfix string: the value stack is
      cleared on entry. */
  function Evaluate(m: Libm, text: string): Outcome {
    EvalFrom(m, Tokens(text), []).outcome
  }

  // ---------------------------------------------------------------------
  // converter_posfixo_para_infixo
  // ---------------------------------------------------------------------

  /** The fragment a binary operator builds: "( l op r )". */
  function Parenthesize(l: string, op: string, r: string): string {
    "( " + l + " " + op + " " + r + " )"
  }

  /** The fragment a function builds: "f( x )". */
  function Call(f: string, x: string): string {
    f + "( " + x + " )"
  }

  /** Rebuilding over the fragment stack `st`: the single fragment left at
      the end, or `None` (the NULL of every error exit). */
  function RebuildFrom(toks: seq<string>, st: seq<string>): Option<string>
    decreases |toks|
  {
    if toks == [] then
      if |st| == 1 then Some(st[0]) else None
    else
      var t := toks[0];
      match KindOf(t)
      case Number =>
        if |st| >= Stacks.Capacity then None
        else RebuildFrom(toks[1..], st + [t])
      case Operator =>
        if |st| < 2 then None
        else
          var rest := st[..|st| - 2];
          if |rest| >= Stacks.Capacity then None
          else RebuildFrom(toks[1..], rest + [Parenthesize(st[|st| - 2], t, st[|st| - 1])])
      case Function =>
        if st == [] then None
        else
          var rest := st[..|st| - 1];
          if |rest| >= Stacks.Capacity then None
          else RebuildFrom(toks[1..], rest + [Call(t, st[|st| - 1])])
      case Invalid => None
  }

  /** converter_posfixo_para_infixo on a postfix string. */
  function Rebuild(text: string): Option<string> {
    RebuildFrom(Tokens(text), [])
  }

  // ---------------------------------------------------------------------
  // One token at a time
  // ---------------------------------------------------------------------

  lemma EvalNumber(m: Libm, t: string, rest: seq<string>, st: seq<real>)
    requires KindOf(t) == Number
    ensures EvalFrom(m, [t] + rest, st) ==
      if |st| >= Stacks.Capacity then EvalRun(Fail(MemoryError), st) else EvalFrom(m, rest, st + [Atof(t)])
  {
    assert ([t] + rest)[0] == t && ([t] + rest)[1..] == rest;
  }

  lemma EvalOperator(m: Libm, t: string, rest: seq<string>, st: seq<real>, x: real, y: real)
    requires KindOf(t) == Operator && |st| + 2 <= Stacks.Capacity
    ensures EvalFrom(m, [t] + rest, st + [x, y]) ==
      match Operate(m, t[0], y, x)
      case None => EvalRun(Fail(MathError), st)
      case Some(v) => EvalFrom(m, rest, st + [v])
  {
    var full := st + [x, y];
    assert full[..|full| - 2] == st && full[|full| - 2] == x && full[|full| - 1] == y;
    assert ([t] + rest)[0] == t && ([t] + rest)[1..] == rest;
  }

  lemma EvalFunction(m: Libm, t: string, rest: seq<string>, st: seq<real>, x: real)
    requires KindOf(t) == Function && |st| + 1 <= Stacks.Capacity
    ensures EvalFrom(m, [t] + rest, st + [x]) ==
      match ApplyFunction(m, t, x)
      case None => EvalRun(Fail(MathError), st)
      case Some(v) => EvalFrom(m, rest, st + [v])
  {
    var full := st + [x];
    assert full[..|full| - 1] == st && full[|full| - 1] == x;
    assert ([t] + rest)[0] == t && ([t] + rest)[1..] == rest;
  }

  /** Too few operands or an invalid token. */
  lemma EvalShort(m: Libm, t: string, rest: seq<string>, st: seq<real>)
    requires (KindOf(t) == Operator && |st| < 2) || (KindOf(t) == Function && st == [])
    ensures EvalFrom(m, [t] + rest, st) == EvalRun(Fail(SyntaxError), [])
  {
    assert ([t] + rest)[0] == t;
  }

  lemma RebuildNumber(t: string, rest: seq<string>, st: seq<string>)
    requires KindOf(t) == Number
    ensures RebuildFrom([t] + rest, st) == if |st| >= Stacks.Capacity then None else RebuildFrom(rest, st + [t])
  {
    assert ([t] + rest)[0] == t && ([t] + rest)[1..] == rest;
  }

  lemma RebuildOperator(t: string, rest: seq<string>, st: seq<string>, x: string, y: string)
    requires KindOf(t) == Operator && |st| + 2 <= Stacks.Capacity
    ensures RebuildFrom([t] + rest, st + [x, y]) == RebuildFrom(rest, st + [Parenthesize(x, t, y)])
  {
    var full := st + [x, y];
    assert full[..|full| - 2] == st && full[|full| - 2] == x && full[|full| - 1] == y;
    assert ([t] + rest)[0] == t && ([t] + rest)[1..] == rest;
  }

  lemma RebuildFunction(t: string, rest: seq<string>, st: seq<string>, x: string)
    requires KindOf(t) == Function && |st| + 1 <= Stacks.Capacity
    ensures RebuildFrom([t] + rest, st + [x]) == RebuildFrom(rest, st + [Call(t, x)])
  {
    var full := st + [x];
    assert full[..|full| - 1] == st && full[|full| - 1] == x;
    assert ([t] + rest)[0] == t && ([t] + rest)[1..] == rest;
  }

  /** Too few fragments or an invalid token. */
  lemma RebuildShort(t: string, rest: seq<string>, st: seq<string>)
    requires (KindOf(t) == Operator && |st| < 2) || (KindOf(t) == Function && st == []) || KindOf(t) == Invalid
    ensures RebuildFrom([t] + rest, st) == None
  {
    assert ([t] + rest)[0] == t;
  }

  // ---------------------------------------------------------------------
  // Properties
  // ---------------------------------------------------------------------

  /** The rebuilder succeeds exactly on the well-formed postfix expressions
      whose operands fit the fragment stack. */
  lemma {:induction false} RebuildFromSucceeds(toks: seq<string>, st: seq<string>)
    requires |st| <= Stacks.Capacity
    ensures RebuildFrom(toks, st).Some? <==> Height(toks, |st|) == Some(1) && Fits(toks, |st|)
    decreases |toks|
  {
    if toks != [] {
      var t := toks[0];
      match KindOf(t)
      case Number =>
        if |st| < Stacks.Capacity {
          RebuildFromSucceeds(toks[1..], st + [t]);
        }
      case Operator =>
        if |st| >= 2 {
          var rest := st[..|st| - 2];
          RebuildFromSucceeds(toks[1..], rest + [Parenthesize(st[|st| - 2], t, st[|st| - 1])]);
        }
      case Function =>
        if st != [] {
          var rest := st[..|st| - 1];
          RebuildFromSucceeds(toks[1..], rest + [Call(t, st[|st| - 1])]);
        }
      case Invalid =>
    }
  }

  lemma RebuildSucceeds(text: string)
    ensures Rebuild(text).Some? <==> WellFormed(Tokens(text)) && Fits(Tokens(text), 0)
  {
    RebuildFromSucceeds(Tokens(text), []);
  }

  /** The evaluator and the count discipline: a well-formed expression that
      fits the stack can fail only on a math error; a value is returned only
      for a well-formed expression that fits; a syntax error means the
      expression is not well formed, a memory error that it does not fit. */
  predicate Disciplined(m: Libm, toks: seq<string>, st: seq<real>) {
    var o := EvalFrom(m, toks, st).outcome;
    && (Height(toks, |st|) == Some(1) && Fits(toks, |st|) ==> o.Ok? || o == Fail(MathError))
    && (o.Ok? ==> Height(toks, |st|) == Some(1) && Fits(toks, |st|))
    && (o == Fail(SyntaxError) ==> Height(toks, |st|) != Some(1))
    && (o == Fail(MemoryError) ==> !Fits(toks, |st|))
  }

  /** A number that is pushed keeps the discipline of the tokens after it. */
  lemma NumberDisciplined(m: Libm, toks: seq<string>, st: seq<real>)
    requires toks != [] && KindOf(toks[0]) == Number && |st| < Stacks.Capacity
    requires Disciplined(m, toks[1..], st + [Atof(toks[0])])
    ensures Disciplined(m, toks, st)
  {
    var st1 := st + [Atof(toks[0])];
    assert |st1| == |st| + 1;
    assert EvalFrom(m, toks, st) == EvalFrom(m, toks[1..], st1);
    assert Height(toks, |st|) == Height(toks[1..], |st1|);
    assert Fits(toks, |st|) == Fits(toks[1..], |st1|);
  }

  /** An operator or a function that replaces its `n` operands by the value
      `v` keeps the discipline of the tokens after it. */
  lemma ReplaceDisciplined(m: Libm, toks: seq<string>, st: seq<real>, n: nat, v: real)
    requires toks != [] && 1 <= n <= 2 && n <= |st| <= Stacks.Capacity
    requires n == 2 ==> KindOf(toks[0]) == Operator && Operate(m, toks[0][0], st[|st| - 1], st[|st| - 2]) == Some(v)
    requires n == 1 ==> KindOf(toks[0]) == Function && ApplyFunction(m, toks[0], st[|st| - 1]) == Some(v)
    requires Disciplined(m, toks[1..], st[..|st| - n] + [v])
    ensures Disciplined(m, toks, st)
  {
    var st1 := st[..|st| - n] + [v];
    assert |st1| == |st| - n + 1;
    assert EvalFrom(m, toks, st) == EvalFrom(m, toks[1..], st1);
    assert Height(toks, |st|) == Height(toks[1..], |st1|);
    assert Fits(toks, |st|) == Fits(toks[1..], |st1|);
  }

  lemma {:induction false} EvalFromDiscipline(m: Libm, toks: seq<string>, st: seq<real>)
    requires |st| <= Stacks.Capacity
    ensures Disciplined(m, toks, st)
    decreases |toks|
  {
    if toks != [] {
      var t := toks[0];
      match KindOf(t)
      case Number =>
        if |st| < Stacks.Capacity {
          EvalFromDiscipline(m, toks[1..], st + [Atof(t)]);
          NumberDisciplined(m, toks, st);
        }
      case Operator =>
        if |st| >= 2 {
          match Operate(m, t[0], st[|st| - 1], st[|st| - 2]) {
            case None =>
            case Some(v) =>
              EvalFromDiscipline(m, toks[1..], st[..|st| - 2] + [v]);
              ReplaceDisciplined(m, toks, st, 2, v);
          }
        }
      case Function =>
        if st != [] {
          match ApplyFunction(m, t, st[|st| - 1]) {
            case None =>
            case Some(v) =>
              EvalFromDiscipline(m, toks[1..], st[..|st| - 1] + [v]);
              ReplaceDisciplined(m, toks, st, 1, v);
          }
        }
      case Invalid =>
    }
  }

  lemma EvaluateDiscipline(m: Libm, text: string)
    ensures var toks := Tokens(text); var o := Evaluate(m, text);
      && (WellFormed(toks) && Fits(toks, 0) ==> o.Ok? || o == Fail(MathError))
      && (o.Ok? ==> WellFormed(toks) && Fits(toks, 0))
      && (o == Fail(SyntaxError) ==> !WellFormed(toks))
      && (o == Fail(MemoryError) ==> !Fits(toks, 0))
  {
    EvalFromDiscipline(m, Tokens(text), []);
  }

  /** Whatever the math library, the evaluator returns a value only for the
      postfix strings the rebuilder accepts, and on every such string it
      returns a value or a math error. */
  lemma EvaluateAgreesWithRebuild(m: Libm, text: string)
    ensures Evaluate(m, text).Ok? ==> Rebuild(text).Some?
    ensures Rebuild(text).Some? ==> Evaluate(m, text).Ok? || Evaluate(m, text) == Fail(MathError)
  {
    EvaluateDiscipline(m, text);
    RebuildSucceeds(text);
  }
}
