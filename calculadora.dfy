/** The calculator context of `expressao.h` (`struct Calculadora`) and its
    three operations, written as the loops the C code runs over its three
    array stacks. Each method is proved to compute what the functions of
    `Infix` and `Postfix` specify and to leave its stack as they say. */
module Calculadora {
  import opened Wrappers
  import opened CType
  import opened Symbols
  import opened Arith
  import opened Text
  import opened Stacks
  import opened Postfix
  import opened Infix

  class Calculator {
    /** pilhaChar / topoChar: the converter's operator stack. */
    const chars: Stack<char>
    /** pilhaFloat / topoFloat: the evaluator's value stack. */
    const floats: Stack<real>
    /** pilhaString / topoString: the rebuilder's fragment stack. */
    const strings: Stack<string>

    ghost predicate Valid()
      reads this, chars, floats, strings
    {
      chars.Valid() && floats.Valid() && strings.Valid()
    }

    /** criar_calculadora: the three stacks start empty. */
    constructor ()
      ensures Valid() && fresh(chars) && fresh(floats) && fresh(strings)
      ensures fresh(chars.data) && fresh(floats.data) && fresh(strings.data)
      ensures chars.Contents() == [] && floats.Contents() == [] && strings.Contents() == []
    {
      chars := new Stack<char>();
      floats := new Stack<real>();
      strings := new Stack<string>();
    }

    /** destruir_calculadora: the fragments still held are released. */
    method Destroy()
      requires Valid()
      modifies strings
      ensures Valid() && strings.Contents() == []
    {
      strings.Drain();
    }

    // -------------------------------------------------------------------
    // converter_infixo_para_posfixo
    // -------------------------------------------------------------------

    /** The number buffer's loop: digits and points while there is room. */
    static method ReadNumber(s: string, i0: nat, j0: nat) returns (e: nat)
      requires i0 <= |s| && j0 <= NumberLimit
      ensures e == NumberEnd(s, i0, j0)
    {
      var i, j := i0, j0;
      while j < NumberLimit && i < |s| && IsNumeral(s[i])
        invariant i0 <= i <= |s| && j0 <= j <= NumberLimit && i - i0 == j - j0
        invariant NumberEnd(s, i, j) == NumberEnd(s, i0, j0)
        decreases |s| - i
      {
        i, j := i + 1, j + 1;
      }
      return i;
    }

    /** The function-name buffer's loop: letters while there is room. */
    static method ReadWord(s: string, i0: nat) returns (e: nat)
      requires i0 <= |s|
      ensures e == WordEnd(s, i0, 0)
    {
      var i, j := i0, 0;
      while j < WordLimit && i < |s| && IsAlpha(s[i])
        invariant i0 <= i <= |s| && j <= WordLimit && i - i0 == j
        invariant WordEnd(s, i, j) == WordEnd(s, i0, 0)
        decreases |s| - i
      {
        i, j := i + 1, j + 1;
      }
      return i;
    }

    /** The ')' branch on the operator stack: pop and write down to the
        nearest '(', fail without one, drop it and write a marker found
        under it. */
    method CloseParen(ghost q: State, buf0: string) returns (ok: bool, buf: string, ghost out: seq<string>)
      requires chars.Valid() && q.stack == chars.Contents() && buf0 == Spaced(q.out)
      modifies chars
      ensures chars.Valid()
      ensures ok <==> Close(q).Next?
      ensures !ok ==> chars.Contents() == Close(q).stack
      ensures ok ==> Close(q).next == State(q.i + 1, chars.Contents(), out, false) && buf == Spaced(out)
    {
      buf, out := PopToOpenLoop(buf0, q.out);
      ghost var st1 := chars.Contents();
      CloseFrom(q, st1, out);
      if chars.IsEmpty() {
        return false, buf, out;
      }
      var _ := chars.Pop();
      assert chars.Contents() == st1[..|st1| - 1];
      if !chars.IsEmpty() && IsAlpha(chars.Peek().value) {
        var f := chars.Pop();
        assert f.value == st1[|st1| - 2] && chars.Contents() == st1[..|st1| - 2];
        SpacedOne(out, EmitText(f.value));
        buf, out := buf + EmitText(f.value) + " ", out + [EmitText(f.value)];
        assert Close(q).next == State(q.i + 1, chars.Contents(), out, false);
      } else {
        assert !(|st1| >= 2 && IsAlpha(st1[|st1| - 2]));
        assert Close(q).next == State(q.i + 1, chars.Contents(), out, false);
      }
      return true, buf, out;
    }

    /** The loop of the ')' branch. */
    method PopToOpenLoop(buf0: string, ghost out0: seq<string>) returns (buf: string, ghost out: seq<string>)
      requires chars.Valid() && buf0 == Spaced(out0)
      modifies chars
      ensures chars.Valid() && buf == Spaced(out)
      ensures (chars.Contents(), out) == PopToOpen(old(chars.Contents()), out0)
    {
      buf, out := buf0, out0;
      while !chars.IsEmpty() && chars.Peek() != Some('(')
        invariant chars.Valid() && buf == Spaced(out)
        invariant PopToOpen(chars.Contents(), out) == PopToOpen(old(chars.Contents()), out0)
        decreases chars.top
      {
        ghost var before := chars.Contents();
        PopToOpenStep(before, out);
        var op := chars.Pop();
        assert op.value == before[|before| - 1] && chars.Contents() == before[..|before| - 1];
        SpacedOne(out, EmitText(op.value));
        buf, out := buf + EmitText(op.value) + " ", out + [EmitText(op.value)];
      }
      PopToOpenDone(chars.Contents(), out);
    }

    /** The operator branch on the operator stack: pop and write the entries
        that go first, then push the operator (a refused push is ignored). */
    method PushOperator(ghost q: State, buf0: string, c: char) returns (buf: string, ghost out: seq<string>)
      requires chars.Valid() && q.stack == chars.Contents() && buf0 == Spaced(q.out)
      modifies chars, chars.data
      ensures chars.Valid()
      ensures Incoming(q, c) == State(q.i + 1, chars.Contents(), out, true) && buf == Spaced(out)
    {
      buf, out := buf0, q.out;
      while !chars.IsEmpty() && GoesFirst(chars.Peek().value, c)
        invariant chars.Valid() && buf == Spaced(out)
        invariant PopWhile(chars.Contents(), out, c) == PopWhile(q.stack, q.out, c)
        decreases chars.top
      {
        ghost var before := chars.Contents();
        PopWhileStep(before, out, c);
        var op := chars.Pop();
        assert op.value == before[|before| - 1] && chars.Contents() == before[..|before| - 1];
        SpacedOne(out, EmitText(op.value));
        buf, out := buf + EmitText(op.value) + " ", out + [EmitText(op.value)];
      }
      PopWhileDone(chars.Contents(), out, c);
      var _ := chars.Push(c);
    }

    /** One round of the conversion loop: the token at `i0` is read, or the
        conversion stops with NULL. */
    method ConvertStep(s: string, ghost q: State, i0: nat, expecting0: bool, buf0: string)
      returns (stop: bool, i: nat, expecting: bool, buf: string, ghost out: seq<string>)
      requires chars.Valid() && buf0 == Spaced(q.out)
      requires q.i == i0 < |s| && q.stack == chars.Contents() && q.expecting == expecting0
      modifies chars, chars.data
      ensures chars.Valid() && (!stop ==> buf == Spaced(out))
      ensures stop ==> StepAt(s, q) == Stop(chars.Contents())
      ensures !stop ==> StepAt(s, q) == Next(State(i, chars.Contents(), out, expecting))
    {
      i, expecting, buf, out := i0, expecting0, buf0, q.out;
      var c := s[i];
      if IsSpace(c) {
        StepSpace(s, q);
        i := i + 1;
      } else if IsDigit(c) || (c == '.' && i + 1 < |s| && IsDigit(s[i + 1])) {
        StepNumber(s, q);
        var e := ReadNumber(s, i, 0);
        SpacedOne(out, s[i..e]);
        buf, out := buf + s[i..e] + " ", out + [s[i..e]];
        i, expecting := e, false;
      } else if expecting && c == '-' {
        StepNegative(s, q);
        var e := ReadNumber(s, i + 1, 1);
        SpacedOne(out, s[i..e]);
        buf, out := buf + s[i..e] + " ", out + [s[i..e]];
        i, expecting := e, false;
      } else if IsAlpha(c) {
        stop, i := WordStep(s, q, i);
        return;
      } else {
        stop, i, expecting, buf, out := SymbolStep(s, q, i, buf);
        return;
      }
      stop := false;
    }

    /** The branch of one round for a letter: the function name is read
        and its marker pushed, or the conversion stops on an unknown name. */
    method WordStep(s: string, ghost q: State, i0: nat) returns (stop: bool, i: nat)
      requires chars.Valid()
      requires q.i == i0 < |s| && q.stack == chars.Contents()
      requires !IsSpace(s[i0]) && !StartsNumber(s, i0)
      requires !(q.expecting && s[i0] == '-') && IsAlpha(s[i0])
      modifies chars, chars.data
      ensures chars.Valid()
      ensures stop ==> StepAt(s, q) == Stop(chars.Contents())
      ensures !stop ==> StepAt(s, q) == Next(State(i, chars.Contents(), q.out, q.expecting))
    {
      StepWord(s, q);
      var e := ReadWord(s, i0);
      if !IsFunctionName(s[i0..e]) {
        return true, i0;
      }
      var _ := chars.Push(Marker(s[i0..e]));
      return false, e;
    }

    /** The branches of one round for a character that is not part of a
        number or a word: '(', ')', an operator, or anything else. */
    method SymbolStep(s: string, ghost q: State, i0: nat, buf0: string)
      returns (stop: bool, i: nat, expecting: bool, buf: string, ghost out: seq<string>)
      requires chars.Valid() && buf0 == Spaced(q.out)
      requires q.i == i0 < |s| && q.stack == chars.Contents()
      requires !IsSpace(s[i0]) && !StartsNumber(s, i0)
      requires !(q.expecting && s[i0] == '-') && !IsAlpha(s[i0])
      modifies chars, chars.data
      ensures chars.Valid() && (!stop ==> buf == Spaced(out))
      ensures stop ==> StepAt(s, q) == Stop(chars.Contents())
      ensures !stop ==> StepAt(s, q) == Next(State(i, chars.Contents(), out, expecting))
    {
      StepOther(s, q);
      i, buf, out := i0, buf0, q.out;
      var c := s[i];
      if c == '(' {
        var _ := chars.Push('(');
        return false, i + 1, true, buf, out;
      } else if c == ')' {
        var ok;
        ok, buf, out := CloseParen(q, buf);
        return !ok, i + 1, false, buf, out;
      } else if IsOperator(c) {
        buf, out := PushOperator(q, buf, c);
        return false, i + 1, true, buf, out;
      } else {
        return true, i, false, buf, out;
      }
    }

    /** converter_infixo_para_posfixo: the postfix text, or `None` for NULL;
        the operator stack is left as the conversion leaves it. */
    method InfixToPostfix(s: string) returns (r: Option<string>)
      requires Valid()
      modifies chars, chars.data
      ensures Valid()
      ensures r == ToPostfix(s)
      ensures chars.Contents() == Convert(s).stack
    {
      chars.Clear();
      var buf: string := "";
      ghost var out: seq<string> := [];
      var i: nat := 0;
      var expecting := true;
      while i < |s|
        invariant chars.Valid() && i <= |s| && buf == Spaced(out)
        invariant Run(s, State(i, chars.Contents(), out, expecting)) == Convert(s)
        decreases |s| - i
      {
        ghost var q := State(i, chars.Contents(), out, expecting);
        assert Run(s, q) == Proceed(s, q);
        var stop;
        stop, i, expecting, buf, out := ConvertStep(s, q, i, expecting, buf);
        if stop {
          return None;
        }
      }
      while !chars.IsEmpty()
        invariant chars.Valid() && buf == Spaced(out)
        invariant Flush(chars.Contents(), out) == Convert(s)
        decreases chars.top
      {
        var op := chars.Pop();
        if op.value == '(' {
          return None;
        }
        SpacedOne(out, EmitText(op.value));
        buf, out := buf + EmitText(op.value) + " ", out + [EmitText(op.value)];
      }
      DropLastSpaced(out);
      if |buf| > 0 {
        r := Some(buf[..|buf| - 1]);
      } else {
        r := Some(buf);
      }
    }

    // -------------------------------------------------------------------
    // calcular_valor_posfixo
    // -------------------------------------------------------------------

    /** One token of the evaluator's loop: `None` to go on, or the status
        it returns with. */
    method EvalToken(m: Libm, t: string, ghost rest: seq<string>) returns (stop: Option<Status>)
      requires floats.Valid() && t != []
      modifies floats, floats.data
      ensures floats.Valid()
      ensures var before := EvalFrom(m, [t] + rest, old(floats.Contents()));
        if stop.None? then before == EvalFrom(m, rest, floats.Contents())
        else before == EvalRun(Fail(stop.value), floats.Contents())
    {
      if IsDigit(t[0]) || (t[0] == '-' && |t| > 1) || t[0] == '.' {
        EvalNumber(m, t, rest, floats.Contents());
        var ok := floats.Push(Atof(t));
        stop := if ok then None else Some(MemoryError);
      } else if IsOperator(t[0]) && |t| == 1 {
        stop := OperatorToken(m, t, rest);
      } else if IsFunctionName(t) {
        stop := FunctionToken(m, t, rest);
      } else {
        assert KindOf(t) == Invalid;
        assert ([t] + rest)[0] == t;
        stop := Some(SyntaxError);
      }
    }

    /** An operator token: pop the right operand, then the left one, and
        push the result. */
    method OperatorToken(m: Libm, t: string, ghost rest: seq<string>) returns (stop: Option<Status>)
      requires floats.Valid() && KindOf(t) == Operator
      modifies floats, floats.data
      ensures floats.Valid()
      ensures var before := EvalFrom(m, [t] + rest, old(floats.Contents()));
        if stop.None? then before == EvalFrom(m, rest, floats.Contents())
        else before == EvalRun(Fail(stop.value), floats.Contents())
    {
      ghost var st := floats.Contents();
      var op2 := floats.Pop();
      var op1 := floats.Pop();
      if op1.None? || op2.None? {
        EvalShort(m, t, rest, st);
        return Some(SyntaxError);
      }
      ghost var below := floats.Contents();
      assert st == below + [op1.value, op2.value];
      EvalOperator(m, t, rest, below, op1.value, op2.value);
      var res := Operate(m, t[0], op2.value, op1.value);
      if res.None? {
        return Some(MathError);
      }
      var ok := floats.Push(res.value);
      assert ok;
      return None;
    }

    /** A function token: pop the argument and push the result. */
    method FunctionToken(m: Libm, t: string, ghost rest: seq<string>) returns (stop: Option<Status>)
      requires floats.Valid() && KindOf(t) == Function
      modifies floats, floats.data
      ensures floats.Valid()
      ensures var before := EvalFrom(m, [t] + rest, old(floats.Contents()));
        if stop.None? then before == EvalFrom(m, rest, floats.Contents())
        else before == EvalRun(Fail(stop.value), floats.Contents())
    {
      ghost var st := floats.Contents();
      var op1 := floats.Pop();
      if op1.None? {
        EvalShort(m, t, rest, st);
        return Some(SyntaxError);
      }
      ghost var below := floats.Contents();
      assert st == below + [op1.value];
      EvalFunction(m, t, rest, below, op1.value);
      var res := ApplyFunction(m, t, op1.value);
      if res.None? {
        return Some(MathError);
      }
      var ok := floats.Push(res.value);
      assert ok;
      return None;
    }

    /** calcular_valor_posfixo: the status and, on success, the value; the
        value stack is cleared on entry and left as the evaluation leaves
        it. */
    method Evaluate(m: Libm, text: string) returns (status: Status, value: real)
      requires Valid()
      modifies floats, floats.data
      ensures Valid()
      ensures var run := EvalFrom(m, Tokens(text), []);
        && status == StatusOf(run.outcome)
        && (run.outcome.Ok? ==> value == run.outcome.value)
        && floats.Contents() == run.stack
    {
      floats.Clear();
      var toks := Tokens(text);
      var n := 0;
      while n < |toks|
        invariant floats.Valid() && n <= |toks|
        invariant EvalFrom(m, toks[n..], floats.Contents()) == EvalFrom(m, toks, [])
        decreases |toks| - n
      {
        assert toks[n] in toks && toks[n..] == [toks[n]] + toks[n + 1..];
        var stop := EvalToken(m, toks[n], toks[n + 1..]);
        if stop.Some? {
          return stop.value, 0.0;
        }
        n := n + 1;
      }
      var last := floats.Pop();
      if last.None? || !floats.IsEmpty() {
        return SyntaxError, 0.0;
      }
      return Success, last.value;
    }

    // -------------------------------------------------------------------
    // converter_posfixo_para_infixo
    // -------------------------------------------------------------------

    /** One token of the rebuilder's loop: `false` when it returns NULL, the
        fragment stack then drained. */
    method RebuildToken(t: string, ghost rest: seq<string>) returns (ok: bool)
      requires strings.Valid() && t != []
      modifies strings, strings.data
      ensures strings.Valid()
      ensures var before := RebuildFrom([t] + rest, old(strings.Contents()));
        if ok then before == RebuildFrom(rest, strings.Contents())
        else before == None && strings.Contents() == []
    {
      ghost var st := strings.Contents();
      if IsDigit(t[0]) || (t[0] == '-' && |t| > 1) || t[0] == '.' {
        RebuildNumber(t, rest, st);
        ok := strings.Push(t);
      } else if IsOperator(t[0]) && |t| == 1 {
        var op2 := strings.Pop();
        var op1 := strings.Pop();
        if op1.None? || op2.None? {
          RebuildShort(t, rest, st);
          ok := false;
        } else {
          ghost var below := strings.Contents();
          assert st == below + [op1.value, op2.value];
          RebuildOperator(t, rest, below, op1.value, op2.value);
          ok := strings.Push(Parenthesize(op1.value, t, op2.value));
          assert ok;
        }
      } else if IsFunctionName(t) {
        var op1 := strings.Pop();
        if op1.None? {
          RebuildShort(t, rest, st);
          ok := false;
        } else {
          ghost var below := strings.Contents();
          assert st == below + [op1.value];
          RebuildFunction(t, rest, below, op1.value);
          ok := strings.Push(Call(t, op1.value));
          assert ok;
        }
      } else {
        RebuildShort(t, rest, st);
        ok := false;
      }
      if !ok {
        strings.Drain();
      }
    }

    /** converter_posfixo_para_infixo: the parenthesised infix text, or
        `None` for NULL; every exit leaves the fragment stack empty. */
    method PostfixToInfix(text: string) returns (r: Option<string>)
      requires Valid()
      modifies strings, strings.data
      ensures Valid()
      ensures r == Rebuild(text)
      ensures strings.Contents() == []
    {
      strings.Drain();
      var toks := Tokens(text);
      var n := 0;
      while n < |toks|
        invariant strings.Valid() && n <= |toks|
        invariant RebuildFrom(toks[n..], strings.Contents()) == Rebuild(text)
        decreases |toks| - n
      {
        assert toks[n] in toks && toks[n..] == [toks[n]] + toks[n + 1..];
        var ok := RebuildToken(toks[n], toks[n + 1..]);
        if !ok {
          return None;
        }
        n := n + 1;
      }
      if strings.top != 0 {
        strings.Drain();
        return None;
      }
      r := strings.Pop();
    }
  }
}
