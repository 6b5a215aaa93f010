/** The cases of the test driver (`main.c`) and the associativity examples,
    worked through the converter and the evaluator of `expressao.h`. The
    math library is left open except where a case needs one of its values
    (the square root of 64, two powers). Each case is taken one pass of the
    main loop, or one token, at a time. */
module Scenarios {
  import opened Wrappers
  import opened CType
  import opened Symbols
  import opened Arith
  import opened Text
  import opened Postfix
  import opened Infix
  import Trees

  /** The text of a conversion that writes `ts`. */
  lemma Written(s: string, ts: seq<string>)
    requires Convert(s).out == Some(ts)
    ensures ToPostfix(s) == Some(Join(ts))
  {
  }

  // ---------------------------------------------------------------------
  // Passes of the converter's main loop, over any input
  // ---------------------------------------------------------------------

  /** A literal and the blank after it. */
  lemma RunNumberSpace(s: string, q: State, t: string)
    requires At(s, q.i, t) && IsLiteral(t)
    requires t[0] == '-' ==> q.expecting
    requires q.i + |t| < |s| && s[q.i + |t|] == ' '
    ensures Run(s, q) == Run(s, State(q.i + |t| + 1, q.stack, q.out + [t], false))
  {
    RunNumber(s, q, t);
    RunSpace(s, State(q.i + |t|, q.stack, q.out + [t], false));
  }

  /** An operator and the blank after it, once the operator loop has left
      the stack `st` and the output `out`. */
  lemma RunOperatorSpace(s: string, q: State, st: seq<char>, out: seq<string>)
    requires q.i + 1 < |s| && IsOperator(s[q.i]) && !(q.expecting && s[q.i] == '-') && s[q.i + 1] == ' '
    requires PopWhile(q.stack, q.out, s[q.i]) == (st, out) && |st| < Stacks.Capacity
    ensures Run(s, q) == Run(s, State(q.i + 2, st + [s[q.i]], out, true))
  {
    var r := State(q.i + 1, st + [s[q.i]], out, true);
    assert Incoming(q, s[q.i]) == r;
    RunOperator(s, q);
    RunSpace(s, r);
  }

  /** A literal, a blank, an operator and a blank. */
  lemma RunNumberOperator(s: string, q: State, t: string, st: seq<char>, out: seq<string>)
    requires At(s, q.i, t) && IsLiteral(t)
    requires t[0] == '-' ==> q.expecting
    requires q.i + |t| + 2 < |s| && s[q.i + |t|] == ' ' && s[q.i + |t| + 2] == ' '
    requires IsOperator(s[q.i + |t| + 1])
    requires PopWhile(q.stack, q.out + [t], s[q.i + |t| + 1]) == (st, out) && |st| < Stacks.Capacity
    ensures Run(s, q) == Run(s, State(q.i + |t| + 3, st + [s[q.i + |t| + 1]], out, true))
  {
    RunNumberSpace(s, q, t);
    RunOperatorSpace(s, State(q.i + |t| + 1, q.stack, q.out + [t], false), st, out);
  }

  /** A '(', then a literal, a blank, an operator and a blank: the
      operator stops at the '(' and is pushed over it. */
  lemma RunOpenNumberOperator(s: string, i: nat, base: seq<char>, prior: seq<string>, t: string, op: char, out: seq<string>)
    requires i < |s| && s[i] == '(' && |base| + 1 < Stacks.Capacity
    requires At(s, i + 1, t) && IsLiteral(t) && IsOperator(op)
    requires i + |t| + 3 < |s| && s[i + |t| + 1] == ' ' && s[i + |t| + 2] == op && s[i + |t| + 3] == ' '
    requires out == prior + [t]
    ensures Run(s, State(i, base, prior, true)) == Run(s, State(i + |t| + 4, base + ['(', op], out, true))
  {
    RunOpen(s, State(i, base, prior, true));
    RunNumberOperatorOverOpen(s, i + 1, base, prior, t, op, out);
  }

  /** A literal, a blank, an operator and a blank right after a '('. */
  lemma RunNumberOperatorOverOpen(s: string, i: nat, base: seq<char>, prior: seq<string>, t: string, op: char, out: seq<string>)
    requires |base| + 1 < Stacks.Capacity
    requires At(s, i, t) && IsLiteral(t) && IsOperator(op)
    requires i + |t| + 2 < |s| && s[i + |t|] == ' ' && s[i + |t| + 1] == op && s[i + |t| + 2] == ' '
    requires out == prior + [t]
    ensures Run(s, State(i, base + ['('], prior, true)) == Run(s, State(i + |t| + 3, base + ['(', op], out, true))
  {
    var q := State(i, base + ['('], prior, true);
    PopWhileDone(q.stack, out, op);
    RunNumberOperator(s, q, t, q.stack, out);
    Pair(base, '(', op);
  }

  /** A literal at the end of the input: the stack is emptied after it. */
  lemma RunLastNumber(s: string, q: State, t: string)
    requires At(s, q.i, t) && IsLiteral(t)
    requires t[0] == '-' ==> q.expecting
    requires q.i + |t| == |s|
    ensures Run(s, q) == Flush(q.stack, q.out + [t])
  {
    RunNumber(s, q, t);
  }

  /** One operator left on the stack is written last. */
  lemma FlushOne(c: char, out: seq<string>)
    requires IsOperator(c)
    ensures Flush([c], out) == Conv(Some(out + [[c]]), [])
  {
    assert [c][..0] == [];
  }

  /** Two operators left on the stack are written top first. */
  lemma FlushTwo(c1: char, c2: char, out: seq<string>)
    requires IsOperator(c1) && IsOperator(c2)
    ensures Flush([c1, c2], out) == Conv(Some(out + [[c2], [c1]]), [])
  {
    assert [c1, c2][..1] == [c1];
    FlushOne(c1, out + [[c2]]);
    assert out + [[c2]] + [[c1]] == out + [[c2], [c1]];
  }

  /** A ')' over "( op1 op2": both operators are written, the upper one
      first, and the '(' is dropped. */
  lemma CloseTwo(q: State, st: seq<char>, op1: char, op2: char)
    requires q.stack == st + ['(', op1, op2] && IsOperator(op1) && IsOperator(op2)
    requires st == [] || !IsAlpha(st[|st| - 1])
    ensures Close(q) == Next(State(q.i + 1, st, q.out + [[op2], [op1]], false))
  {
    var full, st1 := st + ['(', op1, op2], st + ['('];
    assert full[..|full| - 1] == st + ['(', op1] && full[|full| - 1] == op2;
    assert EmitText(op2) == [op2];
    Trees.PopOperator(st, op1, q.out + [[op2]]);
    assert q.out + [[op2]] + [[op1]] == q.out + [[op2], [op1]];
    CloseFrom(q, st1, q.out + [[op2], [op1]]);
    assert st1[..|st1| - 1] == st;
    assert |st1| >= 2 ==> st1[|st1| - 2] == st[|st| - 1];
  }

  // ---------------------------------------------------------------------
  // Evaluation of postfix token sequences, over any tokens
  // ---------------------------------------------------------------------

  /** Two numbers in a row are pushed one after the other. */
  lemma PushTwo(m: Libm, a: string, b: string, rest: seq<string>, st: seq<real>)
    requires KindOf(a) == Number && KindOf(b) == Number && |st| + 2 <= Stacks.Capacity
    ensures EvalFrom(m, [a, b] + rest, st) == EvalFrom(m, rest, st + [Atof(a), Atof(b)])
  {
    Cons2(a, b, rest);
    EvalNumber(m, a, [b] + rest, st);
    EvalNumber(m, b, rest, st + [Atof(a)]);
    assert st + [Atof(a)] + [Atof(b)] == st + [Atof(a), Atof(b)];
  }

  /** Two numbers and then an operator: the operator is applied to the two
      values read, the first one on its left. */
  lemma NumbersOperator(m: Libm, a: string, b: string, o: string, rest: seq<string>, st: seq<real>)
    requires KindOf(a) == Number && KindOf(b) == Number && KindOf(o) == Operator
    requires |st| + 2 <= Stacks.Capacity
    ensures EvalFrom(m, [a, b, o] + rest, st) ==
      match Operate(m, o[0], Atof(b), Atof(a))
      case None => EvalRun(Fail(MathError), st)
      case Some(v) => EvalFrom(m, rest, st + [v])
  {
    assert [a, b, o] + rest == [a, b] + ([o] + rest);
    PushTwo(m, a, b, [o] + rest, st);
    EvalOperator(m, o, rest, st, Atof(a), Atof(b));
  }

  /** A number and then an operator: the operator is applied to the value
      below and the number read. */
  lemma NumberOperator(m: Libm, c: string, o: string, rest: seq<string>, st: seq<real>, x: real)
    requires KindOf(c) == Number && KindOf(o) == Operator
    requires |st| + 2 <= Stacks.Capacity
    ensures EvalFrom(m, [c, o] + rest, st + [x]) ==
      match Operate(m, o[0], Atof(c), x)
      case None => EvalRun(Fail(MathError), st)
      case Some(v) => EvalFrom(m, rest, st + [v])
  {
    assert [c, o] + rest == [c] + ([o] + rest);
    EvalNumber(m, c, [o] + rest, st + [x]);
    assert st + [x] + [Atof(c)] == st + [x, Atof(c)];
    EvalOperator(m, o, rest, st, x, Atof(c));
  }

  /** One value left and no token: the value of the expression. */
  lemma EvalLast(m: Libm, v: real)
    ensures EvalFrom(m, [], [] + [v]) == EvalRun(Ok(v), [])
  {
    assert [] + [v] == [v];
  }

  /** "a b o1 c o2" is (a o1 b) o2 c. */
  lemma LeftChain(m: Libm, a: string, b: string, o1: string, c: string, o2: string, v1: real, v2: real)
    requires KindOf(a) == Number && KindOf(b) == Number && KindOf(c) == Number
    requires KindOf(o1) == Operator && KindOf(o2) == Operator
    requires Operate(m, o1[0], Atof(b), Atof(a)) == Some(v1)
    requires Operate(m, o2[0], Atof(c), v1) == Some(v2)
    ensures EvalFrom(m, [a, b, o1, c, o2], []) == EvalRun(Ok(v2), [])
  {
    Split32(a, b, o1, c, o2);
    NumbersOperator(m, a, b, o1, [c, o2], []);
    LastOperator(m, c, o2, v1, v2);
  }

  /** "c o" over the single value x leaves x o c. */
  lemma LastOperator(m: Libm, c: string, o: string, x: real, v: real)
    requires KindOf(c) == Number && KindOf(o) == Operator
    requires Operate(m, o[0], Atof(c), x) == Some(v)
    ensures EvalFrom(m, [c, o], [] + [x]) == EvalRun(Ok(v), [])
  {
    assert [c, o] == [c, o] + [];
    NumberOperator(m, c, o, [], [], x);
    EvalLast(m, v);
  }

  /** "a b c o1 o2" is a o2 (b o1 c). */
  lemma RightChain(m: Libm, a: string, b: string, c: string, o1: string, o2: string, v1: real, v2: real)
    requires KindOf(a) == Number && KindOf(b) == Number && KindOf(c) == Number
    requires KindOf(o1) == Operator && KindOf(o2) == Operator
    requires Operate(m, o1[0], Atof(c), Atof(b)) == Some(v1)
    requires Operate(m, o2[0], v1, Atof(a)) == Some(v2)
    ensures EvalFrom(m, [a, b, c, o1, o2], []) == EvalRun(Ok(v2), [])
  {
    RightPushes(m, a, b, c, o1, o2);
    RightApplies(m, o1, o2, Atof(a), Atof(b), Atof(c), v1, v2);
  }

  /** The three numbers of "a b c o1 o2" go onto the empty stack in order. */
  lemma RightPushes(m: Libm, a: string, b: string, c: string, o1: string, o2: string)
    requires KindOf(a) == Number && KindOf(b) == Number && KindOf(c) == Number
    ensures EvalFrom(m, [a, b, c, o1, o2], []) == EvalFrom(m, [o1] + [o2], [] + [Atof(a)] + [Atof(b)] + [Atof(c)])
  {
    var x, y := Atof(a), Atof(b);
    Split5(a, b, c, o1, o2);
    PushOne(m, a, [b] + ([c] + ([o1] + [o2])), []);
    PushOne(m, b, [c] + ([o1] + [o2]), [] + [x]);
    PushOne(m, c, [o1] + [o2], [] + [x] + [y]);
  }

  /** Two operators fold the three values x y z into x o2 (y o1 z). */
  lemma RightApplies(m: Libm, o1: string, o2: string, x: real, y: real, z: real, v1: real, v2: real)
    requires KindOf(o1) == Operator && KindOf(o2) == Operator
    requires Operate(m, o1[0], z, y) == Some(v1)
    requires Operate(m, o2[0], v1, x) == Some(v2)
    ensures EvalFrom(m, [o1] + [o2], [] + [x] + [y] + [z]) == EvalRun(Ok(v2), [])
  {
    Pair([] + [x], y, z);
    ApplyOne(m, o1, [o2], [] + [x], y, z, v1);
    Pair([], x, v1);
    assert [o2] + [] == [o2];
    ApplyOne(m, o2, [], [], x, v1, v2);
    EvalLast(m, v2);
  }

  /** A number is pushed. */
  lemma PushOne(m: Libm, a: string, rest: seq<string>, st: seq<real>)
    requires KindOf(a) == Number && |st| < Stacks.Capacity
    ensures EvalFrom(m, [a] + rest, st) == EvalFrom(m, rest, st + [Atof(a)])
  {
    EvalNumber(m, a, rest, st);
  }

  /** An operator that yields `v` replaces the two values under it by `v`. */
  lemma ApplyOne(m: Libm, o: string, rest: seq<string>, st: seq<real>, x: real, y: real, v: real)
    requires KindOf(o) == Operator && |st| + 2 <= Stacks.Capacity
    requires Operate(m, o[0], y, x) == Some(v)
    ensures EvalFrom(m, [o] + rest, st + [x, y]) == EvalFrom(m, rest, st + [v])
  {
    EvalOperator(m, o, rest, st, x, y);
  }

  /** "a b o1 c o2 d o3" is ((a o1 b) o2 c) o3 d. */
  lemma LeftChain3(m: Libm, a: string, b: string, o1: string, c: string, o2: string, d: string, o3: string,
                   v1: real, v2: real, v3: real)
    requires KindOf(a) == Number && KindOf(b) == Number && KindOf(c) == Number && KindOf(d) == Number
    requires KindOf(o1) == Operator && KindOf(o2) == Operator && KindOf(o3) == Operator
    requires Operate(m, o1[0], Atof(b), Atof(a)) == Some(v1)
    requires Operate(m, o2[0], Atof(c), v1) == Some(v2)
    requires Operate(m, o3[0], Atof(d), v2) == Some(v3)
    ensures EvalFrom(m, [a, b, o1, c, o2, d, o3], []) == EvalRun(Ok(v3), [])
  {
    var x, y, z, w := Atof(a), Atof(b), Atof(c), Atof(d);
    var t6 := [o3] + [];
    var t5 := [d] + t6;
    var t4 := [o2] + t5;
    var t3 := [c] + t4;
    var t2 := [o1] + t3;
    var t1 := [b] + t2;
    Unfold7(a, b, o1, c, o2, d, o3, []);
    assert [a, b, o1, c, o2, d, o3] + [] == [a, b, o1, c, o2, d, o3];
    PushOne(m, a, t1, []);
    PushOne(m, b, t2, [] + [x]);
    Pair([], x, y);
    ApplyOne(m, o1, t3, [], x, y, v1);
    PushOne(m, c, t4, [] + [v1]);
    Pair([], v1, z);
    ApplyOne(m, o2, t5, [], v1, z, v2);
    PushOne(m, d, t6, [] + [v2]);
    Pair([], v2, w);
    ApplyOne(m, o3, [], [], v2, w, v3);
    EvalLast(m, v3);
  }

  /** "a b c d o1 o2 o3" on top of `st` leaves a o3 (b o2 (c o1 d)) on it. */
  lemma NestFrom(m: Libm, a: string, b: string, c: string, d: string, o1: string, o2: string, o3: string,
                 rest: seq<string>, st: seq<real>, v1: real, v2: real, v3: real)
    requires KindOf(a) == Number && KindOf(b) == Number && KindOf(c) == Number && KindOf(d) == Number
    requires KindOf(o1) == Operator && KindOf(o2) == Operator && KindOf(o3) == Operator
    requires |st| + 4 <= Stacks.Capacity
    requires Operate(m, o1[0], Atof(d), Atof(c)) == Some(v1)
    requires Operate(m, o2[0], v1, Atof(b)) == Some(v2)
    requires Operate(m, o3[0], v2, Atof(a)) == Some(v3)
    ensures EvalFrom(m, [a, b, c, d, o1, o2, o3] + rest, st) == EvalFrom(m, rest, st + [v3])
  {
    var x, y, z, w := Atof(a), Atof(b), Atof(c), Atof(d);
    var t6 := [o3] + rest;
    var t5 := [o2] + t6;
    var t4 := [o1] + t5;
    var t3 := [d] + t4;
    var t2 := [c] + t3;
    var t1 := [b] + t2;
    Unfold7(a, b, c, d, o1, o2, o3, rest);
    PushOne(m, a, t1, st);
    PushOne(m, b, t2, st + [x]);
    PushOne(m, c, t3, st + [x] + [y]);
    PushOne(m, d, t4, st + [x] + [y] + [z]);
    Regroup(st, x, y, z, w);
    ApplyOne(m, o1, t5, st + [x, y], z, w, v1);
    Regroup2(st, x, y, v1);
    ApplyOne(m, o2, t6, st + [x], y, v1, v2);
    Pair(st, x, v2);
    ApplyOne(m, o3, rest, st, x, v2, v3);
  }

  /** "a b c d e o1 o2 o3 o4" is a o4 (b o3 (c o2 (d o1 e))). */
  lemma UnderNest(m: Libm, a: string, b: string, c: string, d: string, e: string,
                  o1: string, o2: string, o3: string, o4: string, v1: real, v2: real, v3: real, v4: real)
    requires KindOf(a) == Number && KindOf(b) == Number && KindOf(c) == Number
    requires KindOf(d) == Number && KindOf(e) == Number
    requires KindOf(o1) == Operator && KindOf(o2) == Operator && KindOf(o3) == Operator && KindOf(o4) == Operator
    requires Operate(m, o1[0], Atof(e), Atof(d)) == Some(v1)
    requires Operate(m, o2[0], v1, Atof(c)) == Some(v2)
    requires Operate(m, o3[0], v2, Atof(b)) == Some(v3)
    requires Operate(m, o4[0], v3, Atof(a)) == Some(v4)
    ensures EvalFrom(m, [a, b, c, d, e, o1, o2, o3, o4], []) == EvalRun(Ok(v4), [])
  {
    var x := Atof(a);
    var inner := [b, c, d, e, o1, o2, o3] + [o4];
    Split9(a, b, c, d, e, o1, o2, o3, o4);
    PushOne(m, a, inner, []);
    NestFrom(m, b, c, d, e, o1, o2, o3, [o4], [] + [x], v1, v2, v3);
    Pair([], x, v3);
    assert [o4] + [] == [o4];
    ApplyOne(m, o4, [], [], x, v3, v4);
    EvalLast(m, v4);
  }

  lemma Split5<T>(a: T, b: T, c: T, d: T, e: T)
    ensures [a, b, c, d, e] == [a] + ([b] + ([c] + ([d] + [e])))
  {
  }

  lemma Cons2<T>(a: T, b: T, rest: seq<T>)
    ensures [a, b] + rest == [a] + ([b] + rest)
  {
  }

  lemma Split22<T>(a: T, b: T, c: T, d: T)
    ensures [a, b, c, d] == [a, b] + [c, d]
  {
  }

  lemma Split32<T>(a: T, b: T, c: T, d: T, e: T)
    ensures [a, b, c, d, e] == [a, b, c] + [d, e]
  {
  }

  lemma Split9<T>(a: T, b: T, c: T, d: T, e: T, f: T, g: T, h: T, i: T)
    ensures [a, b, c, d, e, f, g, h, i] == [a] + ([b, c, d, e, f, g, h] + [i])
  {
  }

  /** Four values pushed one at a time, as two pairs. */
  lemma Regroup<T>(st: seq<T>, x: T, y: T, z: T, w: T)
    ensures st + [x] + [y] + [z] + [w] == (st + [x, y]) + [z, w]
  {
  }

  /** A pair pushed on `st + [x]`, as a pair pushed on `st`. */
  lemma Regroup2<T>(st: seq<T>, x: T, y: T, v: T)
    ensures st + [x, y] + [v] == (st + [x]) + [y, v]
  {
  }

  /** Two values pushed one at a time, as a pair. */
  lemma Pair<T>(st: seq<T>, x: T, y: T)
    ensures st + [x] + [y] == st + [x, y]
  {
  }

  /** Seven entries in front of `rest`, one at a time. */
  lemma Unfold7<T>(a: T, b: T, c: T, d: T, e: T, f: T, g: T, rest: seq<T>)
    ensures [a, b, c, d, e, f, g] + rest == [a] + ([b] + ([c] + ([d] + ([e] + ([f] + ([g] + rest))))))
  {
  }

  /** A number and then a function: the function is applied to it. */
  lemma NumberCall(m: Libm, a: string, f: string, rest: seq<string>, v: real)
    requires KindOf(a) == Number && KindOf(f) == Function
    requires ApplyFunction(m, f, Atof(a)) == Some(v)
    ensures EvalFrom(m, [a, f] + rest, []) == EvalFrom(m, rest, [] + [v])
  {
    var x := Atof(a);
    Cons2(a, f, rest);
    EvalNumber(m, a, [f] + rest, []);
    assert [] + [x] == [x];
    EvalFunction(m, f, rest, [], x);
  }

  /** "a f c o" is f(a) o c. */
  lemma CallThenOperator(m: Libm, a: string, f: string, c: string, o: string, v1: real, v2: real)
    requires KindOf(a) == Number && KindOf(f) == Function && KindOf(c) == Number && KindOf(o) == Operator
    requires ApplyFunction(m, f, Atof(a)) == Some(v1)
    requires Operate(m, o[0], Atof(c), v1) == Some(v2)
    ensures EvalFrom(m, [a, f, c, o], []) == EvalRun(Ok(v2), [])
  {
    Split22(a, f, c, o);
    NumberCall(m, a, f, [c, o], v1);
    LastOperator(m, c, o, v1, v2);
  }

  // ---------------------------------------------------------------------
  // The tokens of the cases
  // ---------------------------------------------------------------------

  /** The kinds of the number tokens the cases evaluate. */
  lemma NumberKinds()
    ensures KindOf("0") == Number && KindOf("1") == Number && KindOf("2") == Number
    ensures KindOf("3") == Number && KindOf("4") == Number && KindOf("5") == Number
    ensures KindOf("7") == Number && KindOf("10") == Number && KindOf("64") == Number
    ensures KindOf("-5") == Number && KindOf("-3") == Number
    ensures KindOf("6") == Number && KindOf("8") == Number && KindOf("9") == Number
  {
  }

  /** The kinds of the operator and function tokens the cases evaluate. */
  lemma OperatorKinds()
    ensures KindOf("+") == Operator && KindOf("*") == Operator && KindOf("/") == Operator
    ensures KindOf("%") == Operator && KindOf("^") == Operator
    ensures KindOf("raiz") == Function
  {
  }

  /** A one-digit token is read as its digit. */
  lemma Digit(t: string)
    requires |t| == 1 && IsDigit(t[0])
    ensures Atof(t) == (t[0] as int - '0' as int) as real
  {
    AtofWhole(t);
    assert t[..0] == [];
  }

  // ---------------------------------------------------------------------
  // "(3 + 4) * 5": parentheses group first
  // ---------------------------------------------------------------------

  const Grouped: string := "(3 + 4) * 5"

  lemma Grouped1()
    ensures Run(Grouped, Start) == Run(Grouped, State(3, ['('], ["3"], false))
  {
    RunOpen(Grouped, Start);
    assert [] + ['('] == ['('];
    RunNumberSpace(Grouped, State(1, ['('], [], true), "3");
    assert [] + ["3"] == ["3"];
  }

  lemma Grouped2()
    ensures Run(Grouped, State(3, ['('], ["3"], false)) == Run(Grouped, State(6, ['(', '+'], ["3", "4"], false))
  {
    PopWhileDone(['('], ["3"], '+');
    RunOperatorSpace(Grouped, State(3, ['('], ["3"], false), ['('], ["3"]);
    assert ['('] + ['+'] == ['(', '+'];
    RunNumber(Grouped, State(5, ['(', '+'], ["3"], true), "4");
    assert ["3"] + ["4"] == ["3", "4"];
  }

  lemma Grouped3()
    ensures Run(Grouped, State(6, ['(', '+'], ["3", "4"], false)) == Run(Grouped, State(10, ['*'], ["3", "4", "+"], true))
  {
    var q := State(6, ['(', '+'], ["3", "4"], false);
    Trees.CloseBin(q, [], '+');
    RunClose(Grouped, q);
    assert ["3", "4"] + ["+"] == ["3", "4", "+"];
    RunSpace(Grouped, State(7, [], ["3", "4", "+"], false));
    PopWhileDone([], ["3", "4", "+"], '*');
    RunOperatorSpace(Grouped, State(8, [], ["3", "4", "+"], false), [], ["3", "4", "+"]);
    assert [] + ['*'] == ['*'];
  }

  lemma Grouped4()
    ensures Run(Grouped, State(10, ['*'], ["3", "4", "+"], true)).out == Some(["3", "4", "+", "5", "*"])
  {
    RunLastNumber(Grouped, State(10, ['*'], ["3", "4", "+"], true), "5");
    FlushOne('*', ["3", "4", "+", "5"]);
    assert ["3", "4", "+"] + ["5"] == ["3", "4", "+", "5"];
    assert ["3", "4", "+", "5"] + ["*"] == ["3", "4", "+", "5", "*"];
  }

  lemma GroupedRun()
    ensures Convert(Grouped).out == Some(["3", "4", "+", "5", "*"])
  {
    Grouped1();
    Grouped2();
    Grouped3();
    Grouped4();
  }

  lemma Sum35Text()
    ensures Join(["3", "4", "+", "5", "*"]) == "3 4 + 5 *"
    ensures Tokens("3 4 + 5 *") == ["3", "4", "+", "5", "*"]
  {
    var ts := ["3", "4", "+", "5", "*"];
    assert Join(ts) == "3 4 + 5 *";
    TokensJoin(ts);
  }

  lemma Sum35Eval(m: Libm)
    ensures EvalFrom(m, ["3", "4", "+", "5", "*"], []) == EvalRun(Ok(35.0), [])
  {
    NumberKinds();
    OperatorKinds();
    Digit("3");
    Digit("4");
    Digit("5");
    LeftChain(m, "3", "4", "+", "5", "*", 7.0, 35.0);
  }

  lemma ConvertGrouped()
    ensures ToPostfix(Grouped) == Some("3 4 + 5 *")
  {
    GroupedRun();
    Written(Grouped, ["3", "4", "+", "5", "*"]);
    Sum35Text();
  }

  /** "3 4 + 5 *" is 35. */
  lemma EvaluateSum35(m: Libm)
    ensures Evaluate(m, "3 4 + 5 *") == Ok(35.0)
  {
    Sum35Text();
    Sum35Eval(m);
  }

  /** main.c: "(3 + 4) * 5" is converted to "3 4 + 5 *", which is 35. */
  lemma DriverGrouped(m: Libm)
    ensures ToPostfix(Grouped) == Some("3 4 + 5 *")
    ensures Evaluate(m, "3 4 + 5 *") == Ok(35.0)
  {
    ConvertGrouped();
    EvaluateSum35(m);
  }

  // ---------------------------------------------------------------------
  // "7 * 2 + 4": '*' binds tighter than '+'
  // ---------------------------------------------------------------------

  const Product: string := "7 * 2 + 4"

  lemma Product1()
    ensures Run(Product, Start) == Run(Product, State(4, ['*'], ["7"], true))
  {
    PopWhileDone([], ["7"], '*');
    assert [] + ["7"] == ["7"];
    RunNumberOperator(Product, Start, "7", [], ["7"]);
    assert [] + ['*'] == ['*'];
  }

  lemma Product2()
    ensures Run(Product, State(4, ['*'], ["7"], true)) == Run(Product, State(6, ['*'], ["7", "2"], false))
  {
    RunNumberSpace(Product, State(4, ['*'], ["7"], true), "2");
    assert ["7"] + ["2"] == ["7", "2"];
  }

  lemma Product3()
    ensures Run(Product, State(6, ['*'], ["7", "2"], false)) == Run(Product, State(8, ['+'], ["7", "2", "*"], true))
  {
    PopWhileStep(['*'], ["7", "2"], '+');
    assert ['*'][..0] == [];
    assert ["7", "2"] + [EmitText('*')] == ["7", "2", "*"];
    PopWhileDone([], ["7", "2", "*"], '+');
    RunOperatorSpace(Product, State(6, ['*'], ["7", "2"], false), [], ["7", "2", "*"]);
    assert [] + ['+'] == ['+'];
  }

  lemma Product4()
    ensures Run(Product, State(8, ['+'], ["7", "2", "*"], true)).out == Some(["7", "2", "*", "4", "+"])
  {
    RunLastNumber(Product, State(8, ['+'], ["7", "2", "*"], true), "4");
    FlushOne('+', ["7", "2", "*", "4"]);
    assert ["7", "2", "*"] + ["4"] == ["7", "2", "*", "4"];
    assert ["7", "2", "*", "4"] + ["+"] == ["7", "2", "*", "4", "+"];
  }

  lemma ProductRun()
    ensures Convert(Product).out == Some(["7", "2", "*", "4", "+"])
  {
    Product1();
    Product2();
    Product3();
    Product4();
  }

  lemma ProductText()
    ensures Join(["7", "2", "*", "4", "+"]) == "7 2 * 4 +"
    ensures Tokens("7 2 * 4 +") == ["7", "2", "*", "4", "+"]
  {
    var ts := ["7", "2", "*", "4", "+"];
    assert Join(ts) == "7 2 * 4 +";
    TokensJoin(ts);
  }

  lemma ProductEval(m: Libm)
    ensures EvalFrom(m, ["7", "2", "*", "4", "+"], []) == EvalRun(Ok(18.0), [])
  {
    NumberKinds();
    OperatorKinds();
    Digit("7");
    Digit("2");
    Digit("4");
    LeftChain(m, "7", "2", "*", "4", "+", 14.0, 18.0);
  }

  /** "7 * 2 + 4" is converted to "7 2 * 4 +". */
  lemma ConvertProduct()
    ensures ToPostfix(Product) == Some("7 2 * 4 +")
  {
    ProductRun();
    Written(Product, ["7", "2", "*", "4", "+"]);
    ProductText();
  }

  lemma EvaluateProduct(m: Libm)
    ensures Evaluate(m, "7 2 * 4 +") == Ok(18.0)
  {
    ProductText();
    ProductEval(m);
  }

  /** main.c: "7 * 2 + 4" is converted to "7 2 * 4 +", which is 18. */
  lemma DriverProduct(m: Libm)
    ensures ToPostfix(Product) == Some("7 2 * 4 +")
    ensures Evaluate(m, "7 2 * 4 +") == Ok(18.0)
  {
    ConvertProduct();
    EvaluateProduct(m);
  }

  // ---------------------------------------------------------------------
  // "8 + (5 * (2 + 4))": nested parentheses
  // ---------------------------------------------------------------------

  const Nested: string := "8 + (5 * (2 + 4))"

  lemma Nested1()
    ensures Run(Nested, Start) == Run(Nested, State(4, ['+'], ["8"], true))
  {
    PopWhileDone([], ["8"], '+');
    assert [] + ["8"] == ["8"];
    RunNumberOperator(Nested, Start, "8", [], ["8"]);
    assert [] + ['+'] == ['+'];
  }

  /** A '(' is pushed over '+', and '*' over the '('. */
  lemma Nested2()
    ensures Run(Nested, State(4, ['+'], ["8"], true)) == Run(Nested, State(9, ['+', '(', '*'], ["8", "5"], true))
  {
    RunOpenNumberOperator(Nested, 4, ['+'], ["8"], "5", '*', ["8", "5"]);
    assert ['+'] + ['(', '*'] == ['+', '(', '*'];
  }

  lemma Nested3()
    ensures Run(Nested, State(9, ['+', '(', '*'], ["8", "5"], true)) ==
            Run(Nested, State(14, ['+', '(', '*', '(', '+'], ["8", "5", "2"], true))
  {
    RunOpenNumberOperator(Nested, 9, ['+', '(', '*'], ["8", "5"], "2", '+', ["8", "5", "2"]);
    assert ['+', '(', '*'] + ['(', '+'] == ['+', '(', '*', '(', '+'];
  }


  /** The inner ')' writes the inner '+'. */
  lemma Nested4()
    ensures Run(Nested, State(14, ['+', '(', '*', '(', '+'], ["8", "5", "2"], true)) ==
            Run(Nested, State(16, ['+', '(', '*'], ["8", "5", "2", "4", "+"], false))
  {
    RunNumber(Nested, State(14, ['+', '(', '*', '(', '+'], ["8", "5", "2"], true), "4");
    assert ["8", "5", "2"] + ["4"] == ["8", "5", "2", "4"];
    var q := State(15, ['+', '(', '*', '(', '+'], ["8", "5", "2", "4"], false);
    assert ['+', '(', '*', '(', '+'] == ['+', '(', '*'] + ['(', '+'];
    Trees.CloseBin(q, ['+', '(', '*'], '+');
    RunClose(Nested, q);
    assert ["8", "5", "2", "4"] + ["+"] == ["8", "5", "2", "4", "+"];
  }

  /** The outer ')' writes '*', and the final loop the outer '+'. */
  lemma Nested5()
    ensures Run(Nested, State(16, ['+', '(', '*'], ["8", "5", "2", "4", "+"], false)).out ==
            Some(["8", "5", "2", "4", "+", "*", "+"])
  {
    var q := State(16, ['+', '(', '*'], ["8", "5", "2", "4", "+"], false);
    assert ['+', '(', '*'] == ['+'] + ['(', '*'];
    Trees.CloseBin(q, ['+'], '*');
    RunClose(Nested, q);
    assert ["8", "5", "2", "4", "+"] + ["*"] == ["8", "5", "2", "4", "+", "*"];
    FlushOne('+', ["8", "5", "2", "4", "+", "*"]);
    assert ["8", "5", "2", "4", "+", "*"] + ["+"] == ["8", "5", "2", "4", "+", "*", "+"];
  }

  lemma NestedRun()
    ensures Convert(Nested).out == Some(["8", "5", "2", "4", "+", "*", "+"])
  {
    Nested1();
    Nested2();
    Nested3();
    Nested4();
    Nested5();
  }

  lemma NestedText()
    ensures Join(["8", "5", "2", "4", "+", "*", "+"]) == "8 5 2 4 + * +"
    ensures Tokens("8 5 2 4 + * +") == ["8", "5", "2", "4", "+", "*", "+"]
  {
    NestedJoin();
    TokensJoin(["8", "5", "2", "4", "+", "*", "+"]);
  }

  lemma NestedJoin()
    ensures Join(["8", "5", "2", "4", "+", "*", "+"]) == "8 5 2 4 + * +"
  {
  }

  lemma NestedEval(m: Libm)
    ensures EvalFrom(m, ["8", "5", "2", "4", "+", "*", "+"], []) == EvalRun(Ok(38.0), [])
  {
    NumberKinds();
    OperatorKinds();
    Digit("8");
    Digit("5");
    Digit("2");
    Digit("4");
    NestFrom(m, "8", "5", "2", "4", "+", "*", "+", [], [], 6.0, 30.0, 38.0);
    assert ["8", "5", "2", "4", "+", "*", "+"] + [] == ["8", "5", "2", "4", "+", "*", "+"];
    EvalLast(m, 38.0);
  }

  lemma ConvertNested()
    ensures ToPostfix(Nested) == Some("8 5 2 4 + * +")
  {
    NestedRun();
    Written(Nested, ["8", "5", "2", "4", "+", "*", "+"]);
    NestedText();
  }

  lemma EvaluateNested(m: Libm)
    ensures Evaluate(m, "8 5 2 4 + * +") == Ok(38.0)
  {
    NestedText();
    NestedEval(m);
  }

  /** main.c: "8 + (5 * (2 + 4))" is converted to "8 5 2 4 + * +", which is
      38. */
  lemma DriverNested(m: Libm)
    ensures ToPostfix(Nested) == Some("8 5 2 4 + * +")
    ensures Evaluate(m, "8 5 2 4 + * +") == Ok(38.0)
  {
    ConvertNested();
    EvaluateNested(m);
  }

  // ---------------------------------------------------------------------
  // "(6 / 2 + 3) * 4": '/' is written before '+' inside the parentheses
  // ---------------------------------------------------------------------

  const Quotient: string := "(6 / 2 + 3) * 4"

  lemma Quotient1()
    ensures Run(Quotient, Start) == Run(Quotient, State(5, ['(', '/'], ["6"], true))
  {
    RunOpenNumberOperator(Quotient, 0, [], [], "6", '/', ["6"]);
    assert [] + ['(', '/'] == ['(', '/'];
  }

  /** '+' finds '/' on top, which binds more tightly: '/' is written. */
  lemma Quotient2()
    ensures Run(Quotient, State(5, ['(', '/'], ["6"], true)) == Run(Quotient, State(9, ['(', '+'], ["6", "2", "/"], true))
  {
    PopWhileStep(['(', '/'], ["6", "2"], '+');
    assert ['(', '/'][..1] == ['('];
    assert ["6", "2"] + [EmitText('/')] == ["6", "2", "/"];
    PopWhileDone(['('], ["6", "2", "/"], '+');
    assert ["6"] + ["2"] == ["6", "2"];
    RunNumberOperator(Quotient, State(5, ['(', '/'], ["6"], true), "2", ['('], ["6", "2", "/"]);
    assert ['('] + ['+'] == ['(', '+'];
  }

  lemma Quotient3()
    ensures Run(Quotient, State(9, ['(', '+'], ["6", "2", "/"], true)) ==
            Run(Quotient, State(14, ['*'], ["6", "2", "/", "3", "+"], true))
  {
    QuotientClose();
    QuotientTimes();
  }

  lemma QuotientClose()
    ensures Run(Quotient, State(9, ['(', '+'], ["6", "2", "/"], true)) ==
            Run(Quotient, State(11, [], ["6", "2", "/", "3", "+"], false))
  {
    RunNumber(Quotient, State(9, ['(', '+'], ["6", "2", "/"], true), "3");
    assert ["6", "2", "/"] + ["3"] == ["6", "2", "/", "3"];
    var q := State(10, ['(', '+'], ["6", "2", "/", "3"], false);
    assert ['(', '+'] == [] + ['(', '+'];
    Trees.CloseBin(q, [], '+');
    RunClose(Quotient, q);
    assert ["6", "2", "/", "3"] + ["+"] == ["6", "2", "/", "3", "+"];
  }

  lemma QuotientTimes()
    ensures Run(Quotient, State(11, [], ["6", "2", "/", "3", "+"], false)) ==
            Run(Quotient, State(14, ['*'], ["6", "2", "/", "3", "+"], true))
  {
    var out := ["6", "2", "/", "3", "+"];
    RunSpace(Quotient, State(11, [], out, false));
    PopWhileDone([], out, '*');
    RunOperatorSpace(Quotient, State(12, [], out, false), [], out);
    assert [] + ['*'] == ['*'];
  }

  lemma Quotient4()
    ensures Run(Quotient, State(14, ['*'], ["6", "2", "/", "3", "+"], true)).out == Some(["6", "2", "/", "3", "+", "4", "*"])
  {
    RunLastNumber(Quotient, State(14, ['*'], ["6", "2", "/", "3", "+"], true), "4");
    assert ["6", "2", "/", "3", "+"] + ["4"] == ["6", "2", "/", "3", "+", "4"];
    FlushOne('*', ["6", "2", "/", "3", "+", "4"]);
    assert ["6", "2", "/", "3", "+", "4"] + ["*"] == ["6", "2", "/", "3", "+", "4", "*"];
  }

  lemma QuotientRun()
    ensures Convert(Quotient).out == Some(["6", "2", "/", "3", "+", "4", "*"])
  {
    Quotient1();
    Quotient2();
    Quotient3();
    Quotient4();
  }

  lemma QuotientText()
    ensures Join(["6", "2", "/", "3", "+", "4", "*"]) == "6 2 / 3 + 4 *"
    ensures Tokens("6 2 / 3 + 4 *") == ["6", "2", "/", "3", "+", "4", "*"]
  {
    QuotientJoin();
    TokensJoin(["6", "2", "/", "3", "+", "4", "*"]);
  }

  lemma QuotientJoin()
    ensures Join(["6", "2", "/", "3", "+", "4", "*"]) == "6 2 / 3 + 4 *"
  {
  }

  lemma QuotientEval(m: Libm)
    ensures EvalFrom(m, ["6", "2", "/", "3", "+", "4", "*"], []) == EvalRun(Ok(24.0), [])
  {
    NumberKinds();
    OperatorKinds();
    Digit("6");
    Digit("2");
    Digit("3");
    Digit("4");
    LeftChain3(m, "6", "2", "/", "3", "+", "4", "*", 3.0, 6.0, 24.0);
  }

  lemma ConvertQuotient()
    ensures ToPostfix(Quotient) == Some("6 2 / 3 + 4 *")
  {
    QuotientRun();
    Written(Quotient, ["6", "2", "/", "3", "+", "4", "*"]);
    QuotientText();
  }

  lemma EvaluateQuotient(m: Libm)
    ensures Evaluate(m, "6 2 / 3 + 4 *") == Ok(24.0)
  {
    QuotientText();
    QuotientEval(m);
  }

  /** main.c: "(6 / 2 + 3) * 4" is converted to "6 2 / 3 + 4 *", which is
      24. */
  lemma DriverQuotient(m: Libm)
    ensures ToPostfix(Quotient) == Some("6 2 / 3 + 4 *")
    ensures Evaluate(m, "6 2 / 3 + 4 *") == Ok(24.0)
  {
    ConvertQuotient();
    EvaluateQuotient(m);
  }

  // ---------------------------------------------------------------------
  // "9 + (5 * (2 + 8 * 4))": a ')' that writes two operators
  // ---------------------------------------------------------------------

  const Deep: string := "9 + (5 * (2 + 8 * 4))"

  lemma Deep1()
    ensures Run(Deep, Start) == Run(Deep, State(4, ['+'], ["9"], true))
  {
    PopWhileDone([], ["9"], '+');
    assert [] + ["9"] == ["9"];
    RunNumberOperator(Deep, Start, "9", [], ["9"]);
    assert [] + ['+'] == ['+'];
  }

  lemma Deep2()
    ensures Run(Deep, State(4, ['+'], ["9"], true)) == Run(Deep, State(9, ['+', '(', '*'], ["9", "5"], true))
  {
    RunOpenNumberOperator(Deep, 4, ['+'], ["9"], "5", '*', ["9", "5"]);
    assert ['+'] + ['(', '*'] == ['+', '(', '*'];
  }

  lemma Deep3()
    ensures Run(Deep, State(9, ['+', '(', '*'], ["9", "5"], true)) ==
            Run(Deep, State(14, ['+', '(', '*', '(', '+'], ["9", "5", "2"], true))
  {
    RunOpenNumberOperator(Deep, 9, ['+', '(', '*'], ["9", "5"], "2", '+', ["9", "5", "2"]);
    assert ['+', '(', '*'] + ['(', '+'] == ['+', '(', '*', '(', '+'];
  }


  /** The inner '*' is pushed over the inner '+', which binds less tightly. */
  lemma Deep4()
    ensures Run(Deep, State(14, ['+', '(', '*', '(', '+'], ["9", "5", "2"], true)) ==
            Run(Deep, State(18, ['+', '(', '*', '(', '+', '*'], ["9", "5", "2", "8"], true))
  {
    assert ["9", "5", "2"] + ["8"] == ["9", "5", "2", "8"];
    PopWhileDone(['+', '(', '*', '(', '+'], ["9", "5", "2", "8"], '*');
    RunNumberOperator(Deep, State(14, ['+', '(', '*', '(', '+'], ["9", "5", "2"], true), "8",
                      ['+', '(', '*', '(', '+'], ["9", "5", "2", "8"]);
    assert ['+', '(', '*', '(', '+'] + ['*'] == ['+', '(', '*', '(', '+', '*'];
  }

  /** The inner ')' writes '*' and then '+'. */
  lemma Deep5()
    ensures Run(Deep, State(18, ['+', '(', '*', '(', '+', '*'], ["9", "5", "2", "8"], true)) ==
            Run(Deep, State(20, ['+', '(', '*'], ["9", "5", "2", "8", "4", "*", "+"], false))
  {
    RunNumber(Deep, State(18, ['+', '(', '*', '(', '+', '*'], ["9", "5", "2", "8"], true), "4");
    assert ["9", "5", "2", "8"] + ["4"] == ["9", "5", "2", "8", "4"];
    var q := State(19, ['+', '(', '*', '(', '+', '*'], ["9", "5", "2", "8", "4"], false);
    assert ['+', '(', '*', '(', '+', '*'] == ['+', '(', '*'] + ['(', '+', '*'];
    CloseTwo(q, ['+', '(', '*'], '+', '*');
    RunClose(Deep, q);
    assert ["9", "5", "2", "8", "4"] + [['*'], ['+']] == ["9", "5", "2", "8", "4", "*", "+"];
  }

  lemma Deep6()
    ensures Run(Deep, State(20, ['+', '(', '*'], ["9", "5", "2", "8", "4", "*", "+"], false)).out ==
            Some(["9", "5", "2", "8", "4", "*", "+", "*", "+"])
  {
    var q := State(20, ['+', '(', '*'], ["9", "5", "2", "8", "4", "*", "+"], false);
    assert ['+', '(', '*'] == ['+'] + ['(', '*'];
    Trees.CloseBin(q, ['+'], '*');
    RunClose(Deep, q);
    var out := ["9", "5", "2", "8", "4", "*", "+", "*"];
    assert ["9", "5", "2", "8", "4", "*", "+"] + ["*"] == out;
    FlushOne('+', out);
    assert out + ["+"] == ["9", "5", "2", "8", "4", "*", "+", "*", "+"];
  }

  lemma DeepRun()
    ensures Convert(Deep).out == Some(["9", "5", "2", "8", "4", "*", "+", "*", "+"])
  {
    Deep1();
    Deep2();
    Deep3();
    Deep4();
    Deep5();
    Deep6();
  }

  lemma DeepText()
    ensures Join(["9", "5", "2", "8", "4", "*", "+", "*", "+"]) == "9 5 2 8 4 * + * +"
    ensures Tokens("9 5 2 8 4 * + * +") == ["9", "5", "2", "8", "4", "*", "+", "*", "+"]
  {
    DeepJoin();
    TokensJoin(["9", "5", "2", "8", "4", "*", "+", "*", "+"]);
  }

  lemma DeepJoin()
    ensures Join(["9", "5", "2", "8", "4", "*", "+", "*", "+"]) == "9 5 2 8 4 * + * +"
  {
    var head, tail := ["9", "5", "2", "8"], ["4", "*", "+", "*", "+"];
    DeepHalves();
    JoinAppend(head, tail);
    assert head + tail == ["9", "5", "2", "8", "4", "*", "+", "*", "+"];
  }

  lemma DeepHalves()
    ensures Join(["9", "5", "2", "8"]) == "9 5 2 8"
    ensures Join(["4", "*", "+", "*", "+"]) == "4 * + * +"
  {
    assert Join(["8"]) == "8";
    assert Join(["+"]) == "+";
  }

  lemma DeepEval(m: Libm)
    ensures EvalFrom(m, ["9", "5", "2", "8", "4", "*", "+", "*", "+"], []) == EvalRun(Ok(179.0), [])
  {
    NumberKinds();
    OperatorKinds();
    Digit("9");
    Digit("5");
    Digit("2");
    Digit("8");
    Digit("4");
    UnderNest(m, "9", "5", "2", "8", "4", "*", "+", "*", "+", 32.0, 34.0, 170.0, 179.0);
  }

  lemma ConvertDeep()
    ensures ToPostfix(Deep) == Some("9 5 2 8 4 * + * +")
  {
    DeepRun();
    Written(Deep, ["9", "5", "2", "8", "4", "*", "+", "*", "+"]);
    DeepText();
  }

  lemma EvaluateDeep(m: Libm)
    ensures Evaluate(m, "9 5 2 8 4 * + * +") == Ok(179.0)
  {
    DeepText();
    DeepEval(m);
  }

  /** main.c: "9 + (5 * (2 + 8 * 4))" is converted to "9 5 2 8 4 * + * +",
      which is 179. */
  lemma DriverDeep(m: Libm)
    ensures ToPostfix(Deep) == Some("9 5 2 8 4 * + * +")
    ensures Evaluate(m, "9 5 2 8 4 * + * +") == Ok(179.0)
  {
    ConvertDeep();
    EvaluateDeep(m);
  }

  // ---------------------------------------------------------------------
  // "10 / 0": a math error
  // ---------------------------------------------------------------------

  const Division: string := "10 / 0"

  lemma Division1()
    ensures Run(Division, Start) == Run(Division, State(5, ['/'], ["10"], true))
  {
    PopWhileDone([], ["10"], '/');
    assert [] + ["10"] == ["10"];
    RunNumberOperator(Division, Start, "10", [], ["10"]);
    assert [] + ['/'] == ['/'];
  }

  lemma Division2()
    ensures Run(Division, State(5, ['/'], ["10"], true)).out == Some(["10", "0", "/"])
  {
    RunLastNumber(Division, State(5, ['/'], ["10"], true), "0");
    FlushOne('/', ["10", "0"]);
    assert ["10"] + ["0"] == ["10", "0"];
    assert ["10", "0"] + ["/"] == ["10", "0", "/"];
  }

  lemma DivisionRun()
    ensures Convert(Division).out == Some(["10", "0", "/"])
  {
    Division1();
    Division2();
  }

  lemma DivisionText()
    ensures Join(["10", "0", "/"]) == "10 0 /"
    ensures Tokens("10 0 /") == ["10", "0", "/"]
  {
    var ts := ["10", "0", "/"];
    assert Join(ts) == "10 0 /";
    TokensJoin(ts);
  }

  lemma DivisionEval(m: Libm)
    ensures EvalFrom(m, ["10", "0", "/"], []).outcome == Fail(MathError)
  {
    NumberKinds();
    OperatorKinds();
    Digit("0");
    assert ["10", "0", "/"] == ["10", "0", "/"] + [];
    NumbersOperator(m, "10", "0", "/", [], []);
  }

  /** main.c: "10 / 0" is converted to "10 0 /", whose evaluation is a math
      error. */
  lemma DriverDivision(m: Libm)
    ensures ToPostfix(Division) == Some("10 0 /")
    ensures Evaluate(m, "10 0 /") == Fail(MathError)
  {
    DivisionRun();
    Written(Division, ["10", "0", "/"]);
    DivisionText();
    DivisionEval(m);
  }

  // ---------------------------------------------------------------------
  // "5 + * 3": accepted by the converter, refused by the evaluator
  // ---------------------------------------------------------------------

  const Doubled: string := "5 + * 3"

  lemma Doubled1()
    ensures Run(Doubled, Start) == Run(Doubled, State(4, ['+'], ["5"], true))
  {
    PopWhileDone([], ["5"], '+');
    assert [] + ["5"] == ["5"];
    RunNumberOperator(Doubled, Start, "5", [], ["5"]);
    assert [] + ['+'] == ['+'];
  }

  /** The second operator finds '+' below it, which binds less tightly, and
      is pushed over it. */
  lemma Doubled2()
    ensures Run(Doubled, State(4, ['+'], ["5"], true)) == Run(Doubled, State(6, ['+', '*'], ["5"], true))
  {
    PopWhileDone(['+'], ["5"], '*');
    RunOperatorSpace(Doubled, State(4, ['+'], ["5"], true), ['+'], ["5"]);
    assert ['+'] + ['*'] == ['+', '*'];
  }

  lemma Doubled3()
    ensures Run(Doubled, State(6, ['+', '*'], ["5"], true)).out == Some(["5", "3", "*", "+"])
  {
    RunLastNumber(Doubled, State(6, ['+', '*'], ["5"], true), "3");
    FlushTwo('+', '*', ["5", "3"]);
    assert ["5"] + ["3"] == ["5", "3"];
    assert ["5", "3"] + ["*", "+"] == ["5", "3", "*", "+"];
  }

  lemma DoubledRun()
    ensures Convert(Doubled).out == Some(["5", "3", "*", "+"])
  {
    Doubled1();
    Doubled2();
    Doubled3();
  }

  lemma DoubledText()
    ensures Join(["5", "3", "*", "+"]) == "5 3 * +"
    ensures Tokens("5 3 * +") == ["5", "3", "*", "+"]
  {
    var ts := ["5", "3", "*", "+"];
    assert Join(ts) == "5 3 * +";
    TokensJoin(ts);
  }

  lemma DoubledEval(m: Libm)
    ensures EvalFrom(m, ["5", "3", "*", "+"], []) == EvalRun(Fail(SyntaxError), [])
  {
    NumberKinds();
    OperatorKinds();
    Digit("5");
    Digit("3");
    assert ["5", "3", "*", "+"] == ["5", "3", "*"] + ["+"];
    NumbersOperator(m, "5", "3", "*", ["+"], []);
    assert [] + [15.0] == [15.0];
    assert ["+"] == ["+"] + [];
    EvalShort(m, "+", [], [15.0]);
  }

  /** main.c: "5 + * 3" is not refused by the converter, which pushes '*'
      over '+' and writes "5 3 * +"; the evaluator then finds '+' with a
      single operand and reports a syntax error. */
  lemma DriverDoubled(m: Libm)
    ensures ToPostfix(Doubled) == Some("5 3 * +")
    ensures Evaluate(m, "5 3 * +") == Fail(SyntaxError)
  {
    DoubledRun();
    Written(Doubled, ["5", "3", "*", "+"]);
    DoubledText();
    DoubledEval(m);
  }

  // ---------------------------------------------------------------------
  // "(10 + 2": a parenthesis left open
  // ---------------------------------------------------------------------

  const Unclosed: string := "(10 + 2"

  lemma Unclosed1()
    ensures Run(Unclosed, Start) == Run(Unclosed, State(4, ['('], ["10"], false))
  {
    RunOpen(Unclosed, Start);
    assert [] + ['('] == ['('];
    RunNumberSpace(Unclosed, State(1, ['('], [], true), "10");
    assert [] + ["10"] == ["10"];
  }

  lemma Unclosed2()
    ensures Run(Unclosed, State(4, ['('], ["10"], false)) == Flush(['(', '+'], ["10", "2"])
  {
    PopWhileDone(['('], ["10"], '+');
    RunOperatorSpace(Unclosed, State(4, ['('], ["10"], false), ['('], ["10"]);
    assert ['('] + ['+'] == ['(', '+'];
    RunLastNumber(Unclosed, State(6, ['(', '+'], ["10"], true), "2");
    assert ["10"] + ["2"] == ["10", "2"];
  }

  /** main.c: "(10 + 2" is refused by the converter. */
  lemma DriverUnclosed()
    ensures ToPostfix(Unclosed) == None
  {
    Unclosed1();
    Unclosed2();
    assert '(' in ['(', '+'];
  }

  // ---------------------------------------------------------------------
  // "-5 * (-3 + 1)": a '-' where an operand is expected is a sign
  // ---------------------------------------------------------------------

  const Signed: string := "-5 * (-3 + 1)"

  lemma Signed1()
    ensures Run(Signed, Start) == Run(Signed, State(5, ['*'], ["-5"], true))
  {
    PopWhileDone([], ["-5"], '*');
    assert [] + ["-5"] == ["-5"];
    RunNumberOperator(Signed, Start, "-5", [], ["-5"]);
    assert [] + ['*'] == ['*'];
  }

  lemma Signed2()
    ensures Run(Signed, State(5, ['*'], ["-5"], true)) == Run(Signed, State(9, ['*', '('], ["-5", "-3"], false))
  {
    RunOpen(Signed, State(5, ['*'], ["-5"], true));
    assert ['*'] + ['('] == ['*', '('];
    RunNumberSpace(Signed, State(6, ['*', '('], ["-5"], true), "-3");
    assert ["-5"] + ["-3"] == ["-5", "-3"];
  }

  lemma Signed3()
    ensures Run(Signed, State(9, ['*', '('], ["-5", "-3"], false)) == Run(Signed, State(12, ['*', '(', '+'], ["-5", "-3", "1"], false))
  {
    PopWhileDone(['*', '('], ["-5", "-3"], '+');
    RunOperatorSpace(Signed, State(9, ['*', '('], ["-5", "-3"], false), ['*', '('], ["-5", "-3"]);
    assert ['*', '('] + ['+'] == ['*', '(', '+'];
    RunNumber(Signed, State(11, ['*', '(', '+'], ["-5", "-3"], true), "1");
    assert ["-5", "-3"] + ["1"] == ["-5", "-3", "1"];
  }

  lemma Signed4()
    ensures Run(Signed, State(12, ['*', '(', '+'], ["-5", "-3", "1"], false)).out == Some(["-5", "-3", "1", "+", "*"])
  {
    var q := State(12, ['*', '(', '+'], ["-5", "-3", "1"], false);
    assert ['*', '(', '+'] == ['*'] + ['(', '+'];
    Trees.CloseBin(q, ['*'], '+');
    RunClose(Signed, q);
    assert ["-5", "-3", "1"] + ["+"] == ["-5", "-3", "1", "+"];
    FlushOne('*', ["-5", "-3", "1", "+"]);
    assert ["-5", "-3", "1", "+"] + ["*"] == ["-5", "-3", "1", "+", "*"];
  }

  lemma SignedRun()
    ensures Convert(Signed).out == Some(["-5", "-3", "1", "+", "*"])
  {
    Signed1();
    Signed2();
    Signed3();
    Signed4();
  }

  lemma SignedText()
    ensures Join(["-5", "-3", "1", "+", "*"]) == "-5 -3 1 + *"
    ensures Tokens("-5 -3 1 + *") == ["-5", "-3", "1", "+", "*"]
  {
    var ts := ["-5", "-3", "1", "+", "*"];
    assert Join(ts) == "-5 -3 1 + *";
    TokensJoin(ts);
  }

  lemma SignedValues()
    ensures Atof("-5") == -5.0 && Atof("-3") == -3.0 && Atof("1") == 1.0
  {
    Digit("5");
    Digit("3");
    Digit("1");
    assert "-5"[1..] == "5" && "-3"[1..] == "3";
  }

  lemma SignedEval(m: Libm)
    ensures EvalFrom(m, ["-5", "-3", "1", "+", "*"], []) == EvalRun(Ok(10.0), [])
  {
    NumberKinds();
    OperatorKinds();
    SignedValues();
    RightChain(m, "-5", "-3", "1", "+", "*", -2.0, 10.0);
  }

  lemma ConvertSigned()
    ensures ToPostfix(Signed) == Some("-5 -3 1 + *")
  {
    SignedRun();
    Written(Signed, ["-5", "-3", "1", "+", "*"]);
    SignedText();
  }

  lemma EvaluateSigned(m: Libm)
    ensures Evaluate(m, "-5 -3 1 + *") == Ok(10.0)
  {
    SignedText();
    SignedEval(m);
  }

  /** main.c: "-5 * (-3 + 1)" is converted to "-5 -3 1 + *", which is 10. */
  lemma DriverSigned(m: Libm)
    ensures ToPostfix(Signed) == Some("-5 -3 1 + *")
    ensures Evaluate(m, "-5 -3 1 + *") == Ok(10.0)
  {
    ConvertSigned();
    EvaluateSigned(m);
  }

  // ---------------------------------------------------------------------
  // "2 ^ 3 ^ 2" and "8 - 3 - 2": '^' groups to the right, '-' to the left
  // ---------------------------------------------------------------------

  const Tower: string := "2 ^ 3 ^ 2"

  lemma Tower1()
    ensures Run(Tower, Start) == Run(Tower, State(4, ['^'], ["2"], true))
  {
    PopWhileDone([], ["2"], '^');
    assert [] + ["2"] == ["2"];
    RunNumberOperator(Tower, Start, "2", [], ["2"]);
    assert [] + ['^'] == ['^'];
  }

  lemma Tower2()
    ensures Run(Tower, State(4, ['^'], ["2"], true)) == Run(Tower, State(6, ['^'], ["2", "3"], false))
  {
    RunNumberSpace(Tower, State(4, ['^'], ["2"], true), "3");
    assert ["2"] + ["3"] == ["2", "3"];
  }

  /** The second '^' does not pop the first: it is pushed over it. */
  lemma Tower3()
    ensures Run(Tower, State(6, ['^'], ["2", "3"], false)) == Run(Tower, State(8, ['^', '^'], ["2", "3"], true))
  {
    PopWhileDone(['^'], ["2", "3"], '^');
    RunOperatorSpace(Tower, State(6, ['^'], ["2", "3"], false), ['^'], ["2", "3"]);
    assert ['^'] + ['^'] == ['^', '^'];
  }

  lemma Tower4()
    ensures Run(Tower, State(8, ['^', '^'], ["2", "3"], true)).out == Some(["2", "3", "2", "^", "^"])
  {
    RunLastNumber(Tower, State(8, ['^', '^'], ["2", "3"], true), "2");
    FlushTwo('^', '^', ["2", "3", "2"]);
    assert ["2", "3"] + ["2"] == ["2", "3", "2"];
    assert ["2", "3", "2"] + ["^", "^"] == ["2", "3", "2", "^", "^"];
  }

  lemma TowerRun()
    ensures Convert(Tower).out == Some(["2", "3", "2", "^", "^"])
  {
    Tower1();
    Tower2();
    Tower3();
    Tower4();
  }

  lemma TowerText()
    ensures Join(["2", "3", "2", "^", "^"]) == "2 3 2 ^ ^"
    ensures Tokens("2 3 2 ^ ^") == ["2", "3", "2", "^", "^"]
  {
    var ts := ["2", "3", "2", "^", "^"];
    assert Join(ts) == "2 3 2 ^ ^";
    TokensJoin(ts);
  }

  lemma TowerEval(m: Libm)
    requires m.pow(3.0, 2.0) == Some(9.0) && m.pow(2.0, 9.0) == Some(512.0)
    ensures EvalFrom(m, ["2", "3", "2", "^", "^"], []) == EvalRun(Ok(512.0), [])
  {
    NumberKinds();
    OperatorKinds();
    Digit("2");
    Digit("3");
    RightChain(m, "2", "3", "2", "^", "^", 9.0, 512.0);
  }

  lemma ConvertTower()
    ensures ToPostfix(Tower) == Some("2 3 2 ^ ^")
  {
    TowerRun();
    Written(Tower, ["2", "3", "2", "^", "^"]);
    TowerText();
  }

  lemma EvaluateTower(m: Libm)
    requires m.pow(3.0, 2.0) == Some(9.0) && m.pow(2.0, 9.0) == Some(512.0)
    ensures Evaluate(m, "2 3 2 ^ ^") == Ok(512.0)
  {
    TowerText();
    TowerEval(m);
  }

  /** "2 ^ 3 ^ 2" is "2 3 2 ^ ^", that is 2 ^ (3 ^ 2) = 512 and not
      (2 ^ 3) ^ 2 = 64: '^' groups to the right. */
  lemma PowerGroupsRight(m: Libm)
    requires m.pow(3.0, 2.0) == Some(9.0) && m.pow(2.0, 9.0) == Some(512.0)
    ensures ToPostfix(Tower) == Some("2 3 2 ^ ^")
    ensures Evaluate(m, "2 3 2 ^ ^") == Ok(512.0)
  {
    ConvertTower();
    EvaluateTower(m);
  }

  const Chain: string := "8 - 3 - 2"

  lemma Chain1()
    ensures Run(Chain, Start) == Run(Chain, State(4, ['-'], ["8"], true))
  {
    PopWhileDone([], ["8"], '-');
    assert [] + ["8"] == ["8"];
    RunNumberOperator(Chain, Start, "8", [], ["8"]);
    assert [] + ['-'] == ['-'];
  }

  lemma Chain2()
    ensures Run(Chain, State(4, ['-'], ["8"], true)) == Run(Chain, State(6, ['-'], ["8", "3"], false))
  {
    RunNumberSpace(Chain, State(4, ['-'], ["8"], true), "3");
    assert ["8"] + ["3"] == ["8", "3"];
  }

  /** The second '-' writes the first before it is pushed. */
  lemma Chain3()
    ensures Run(Chain, State(6, ['-'], ["8", "3"], false)) == Run(Chain, State(8, ['-'], ["8", "3", "-"], true))
  {
    PopWhileStep(['-'], ["8", "3"], '-');
    assert ['-'][..0] == [];
    assert ["8", "3"] + [EmitText('-')] == ["8", "3", "-"];
    PopWhileDone([], ["8", "3", "-"], '-');
    RunOperatorSpace(Chain, State(6, ['-'], ["8", "3"], false), [], ["8", "3", "-"]);
    assert [] + ['-'] == ['-'];
  }

  lemma Chain4()
    ensures Run(Chain, State(8, ['-'], ["8", "3", "-"], true)).out == Some(["8", "3", "-", "2", "-"])
  {
    RunLastNumber(Chain, State(8, ['-'], ["8", "3", "-"], true), "2");
    FlushOne('-', ["8", "3", "-", "2"]);
    assert ["8", "3", "-"] + ["2"] == ["8", "3", "-", "2"];
    assert ["8", "3", "-", "2"] + ["-"] == ["8", "3", "-", "2", "-"];
  }

  lemma ChainRun()
    ensures Convert(Chain).out == Some(["8", "3", "-", "2", "-"])
  {
    Chain1();
    Chain2();
    Chain3();
    Chain4();
  }

  lemma ChainText()
    ensures Join(["8", "3", "-", "2", "-"]) == "8 3 - 2 -"
  {
  }

  /** "8 - 3 - 2" is "8 3 - 2 -", that is (8 - 3) - 2: '-' groups to the
      left. */
  lemma MinusGroupsLeft()
    ensures ToPostfix(Chain) == Some("8 3 - 2 -")
  {
    ChainRun();
    Written(Chain, ["8", "3", "-", "2", "-"]);
    ChainText();
  }

  // ---------------------------------------------------------------------
  // "raiz(64) % 3": a function binds tighter than an operator
  // ---------------------------------------------------------------------

  const Root: string := "raiz(64) % 3"

  lemma Root1()
    ensures Run(Root, Start) == Run(Root, State(5, ['R', '('], [], true))
  {
    RunWord(Root, Start, "raiz");
    assert [] + [Marker("raiz")] == ['R'];
    RunOpen(Root, State(4, ['R'], [], true));
    assert ['R'] + ['('] == ['R', '('];
  }

  lemma Root2()
    ensures Run(Root, State(5, ['R', '('], [], true)) == Run(Root, State(8, [], ["64", "raiz"], false))
  {
    RunNumber(Root, State(5, ['R', '('], [], true), "64");
    assert [] + ["64"] == ["64"];
    var q := State(7, ['R', '('], ["64"], false);
    assert ['R', '('] == [] + [Marker("raiz"), '('];
    Trees.CloseCall(q, [], "raiz");
    RunClose(Root, q);
    assert ["64"] + ["raiz"] == ["64", "raiz"];
  }

  lemma Root3()
    ensures Run(Root, State(8, [], ["64", "raiz"], false)).out == Some(["64", "raiz", "3", "%"])
  {
    RootModulo();
    RootLast();
  }

  lemma RootModulo()
    ensures Run(Root, State(8, [], ["64", "raiz"], false)) == Run(Root, State(11, ['%'], ["64", "raiz"], true))
  {
    RunSpace(Root, State(8, [], ["64", "raiz"], false));
    PopWhileDone([], ["64", "raiz"], '%');
    RunOperatorSpace(Root, State(9, [], ["64", "raiz"], false), [], ["64", "raiz"]);
    assert [] + ['%'] == ['%'];
  }

  lemma RootLast()
    ensures Run(Root, State(11, ['%'], ["64", "raiz"], true)).out == Some(["64", "raiz", "3", "%"])
  {
    RunLastNumber(Root, State(11, ['%'], ["64", "raiz"], true), "3");
    FlushOne('%', ["64", "raiz", "3"]);
    assert ["64", "raiz"] + ["3"] == ["64", "raiz", "3"];
    assert ["64", "raiz", "3"] + ["%"] == ["64", "raiz", "3", "%"];
  }

  lemma RootRun()
    ensures Convert(Root).out == Some(["64", "raiz", "3", "%"])
  {
    Root1();
    Root2();
    Root3();
  }

  lemma RootText()
    ensures Join(["64", "raiz", "3", "%"]) == "64 raiz 3 %"
    ensures Tokens("64 raiz 3 %") == ["64", "raiz", "3", "%"]
  {
    var ts := ["64", "raiz", "3", "%"];
    assert Join(ts) == "64 raiz 3 %";
    TokensJoin(ts);
  }

  /** 8 % 3 is 2. */
  lemma RootRemainder()
    ensures Fmod(8.0, 3.0) == 2.0
  {
    assert Trunc(8.0 / 3.0) == 2;
  }

  lemma RootEval(m: Libm)
    requires m.sqrt(64.0) == 8.0
    ensures EvalFrom(m, ["64", "raiz", "3", "%"], []) == EvalRun(Ok(2.0), [])
  {
    NumberKinds();
    OperatorKinds();
    AtofWhole("64");
    assert "64"[..1] == "6";
    Digit("3");
    RootRemainder();
    CallThenOperator(m, "64", "raiz", "3", "%", 8.0, 2.0);
  }

  lemma ConvertRoot()
    ensures ToPostfix(Root) == Some("64 raiz 3 %")
  {
    RootRun();
    Written(Root, ["64", "raiz", "3", "%"]);
    RootText();
  }

  lemma EvaluateRoot(m: Libm)
    requires m.sqrt(64.0) == 8.0
    ensures Evaluate(m, "64 raiz 3 %") == Ok(2.0)
  {
    RootText();
    RootEval(m);
  }

  /** main.c: "raiz(64) % 3" is converted to "64 raiz 3 %": the root is
      taken before the remainder; with a square root that gives 8 for 64,
      the value is 2. */
  lemma DriverRoot(m: Libm)
    requires m.sqrt(64.0) == 8.0
    ensures ToPostfix(Root) == Some("64 raiz 3 %")
    ensures Evaluate(m, "64 raiz 3 %") == Ok(2.0)
  {
    ConvertRoot();
    EvaluateRoot(m);
  }
}
