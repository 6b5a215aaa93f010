/** Expression trees as a reference for the three operations of
    `expressao.h`: the postfix token sequence of a tree, the fully
    parenthesised text the rebuilder writes for it and the value the
    evaluator computes for it. The lemmas tie the three operations together:
    converting the parenthesised text gives the postfix text, rebuilding the
    postfix text gives the parenthesised text back, and evaluating it gives
    the tree's value. */
module Trees {
  import opened Wrappers
  import opened CType
  import opened Symbols
  import opened Arith
  import opened Text
  import opened Postfix
  import opened Infix
  import Stacks

  datatype Expr = Num(text: string) | Bin(op: char, left: Expr, right: Expr) | Fun(name: string, arg: Expr)

  /** Literals the scanner reads whole, operators and function names. */
  predicate Proper(e: Expr) {
    match e
    case Num(t) => IsLiteral(t)
    case Bin(op, l, r) => IsOperator(op) && Proper(l) && Proper(r)
    case Fun(f, a) => IsFunctionName(f) && Proper(a)
  }

  /** The tree in postfix order, one token per node. */
  function PostfixTokens(e: Expr): seq<string> {
    match e
    case Num(t) => [t]
    case Bin(op, l, r) => PostfixTokens(l) + PostfixTokens(r) + [[op]]
    case Fun(f, a) => PostfixTokens(a) + [f]
  }

  /** The tree as the rebuilder writes it. */
  function Show(e: Expr): string {
    match e
    case Num(t) => t
    case Bin(op, l, r) => Parenthesize(Show(l), [op], Show(r))
    case Fun(f, a) => Call(f, Show(a))
  }

  /** The value of the tree, `None` where an operation or a function is
      undefined. */
  function Value(m: Libm, e: Expr): Option<real> {
    match e
    case Num(t) => Some(Atof(t))
    case Bin(op, l, r) =>
      (match (Value(m, l), Value(m, r))
       case (Some(x), Some(y)) => Operate(m, op, y, x)
       case _ => None)
    case Fun(f, a) =>
      (match Value(m, a)
       case Some(x) => ApplyFunction(m, f, x)
       case None => None)
  }

  /** The most operands (or fragments) held while the tree's postfix tokens
      are read. */
  function Width(e: Expr): (w: nat)
    ensures 1 <= w
    ensures Proper(e) ==> w <= |Show(e)|
  {
    match e
    case Num(t) => 1
    case Bin(op, l, r) => if Width(l) < 1 + Width(r) then 1 + Width(r) else Width(l)
    case Fun(f, a) => Width(a)
  }

  /** The most operator-stack entries held while the tree's text is
      converted. */
  function Pending(e: Expr): (p: nat)
    ensures p <= |Show(e)|
    ensures !e.Num? ==> 2 <= p
  {
    match e
    case Num(t) => 0
    case Bin(op, l, r) => if 1 + Pending(l) < 2 + Pending(r) then 2 + Pending(r) else 1 + Pending(l)
    case Fun(f, a) => 2 + Pending(a)
  }

  // ---------------------------------------------------------------------
  // The rebuilder and the evaluator on a tree's postfix tokens
  // ---------------------------------------------------------------------

  lemma LiteralKind(t: string)
    requires IsLiteral(t)
    ensures KindOf(t) == Number && IsWord(t)
  {
    assert forall k :: 1 <= k < |t| ==> t[k] != ' ';
  }

  /** Reading a tree's tokens pushes its text as one fragment. */
  lemma {:induction false} RebuildTree(e: Expr, rest: seq<string>, st: seq<string>)
    requires Proper(e) && |st| + Width(e) <= Stacks.Capacity
    ensures RebuildFrom(PostfixTokens(e) + rest, st) == RebuildFrom(rest, st + [Show(e)])
    decreases e
  {
    match e
    case Num(t) =>
      LiteralKind(t);
      assert ([t] + rest)[0] == t && ([t] + rest)[1..] == rest;
    case Bin(op, l, r) =>
      var tail := [[op]] + rest;
      assert PostfixTokens(e) + rest == PostfixTokens(l) + (PostfixTokens(r) + tail);
      RebuildTree(l, PostfixTokens(r) + tail, st);
      RebuildTree(r, tail, st + [Show(l)]);
      assert st + [Show(l)] + [Show(r)] == st + [Show(l), Show(r)];
      RebuildOperator([op], rest, st, Show(l), Show(r));
    case Fun(f, a) =>
      var tail := [f] + rest;
      assert PostfixTokens(e) + rest == PostfixTokens(a) + tail;
      RebuildTree(a, tail, st);
      RebuildFunction(f, rest, st, Show(a));
  }

  /** Reading a tree's tokens pushes its value, or ends in a math error
      where the value is undefined. */
  lemma {:induction false} EvalTree(m: Libm, e: Expr, rest: seq<string>, st: seq<real>)
    requires Proper(e) && |st| + Width(e) <= Stacks.Capacity
    ensures Value(m, e).Some? ==>
      EvalFrom(m, PostfixTokens(e) + rest, st) == EvalFrom(m, rest, st + [Value(m, e).value])
    ensures Value(m, e).None? ==> EvalFrom(m, PostfixTokens(e) + rest, st).outcome == Fail(MathError)
    decreases e, 2
  {
    match e
    case Num(t) =>
      LiteralKind(t);
      EvalNumber(m, t, rest, st);
    case Bin(op, l, r) =>
      EvalBin(m, op, l, r, rest, st);
    case Fun(f, a) =>
      var tail := [f] + rest;
      assert PostfixTokens(e) + rest == PostfixTokens(a) + tail;
      EvalTree(m, a, tail, st);
      if Value(m, a).Some? {
        EvalFunction(m, f, rest, st, Value(m, a).value);
      }
  }

  /** The value of an operation, once both operands are known. */
  lemma ValueBin(m: Libm, op: char, l: Expr, r: Expr)
    ensures Value(m, Bin(op, l, r)) ==
      if Value(m, l).Some? && Value(m, r).Some? then Operate(m, op, Value(m, r).value, Value(m, l).value) else None
  {
  }

  /** The tokens of an operation followed by more: the left operand's,
      then the right operand's, then the operator. */
  lemma BinTokens(op: char, l: Expr, r: Expr, rest: seq<string>)
    ensures PostfixTokens(Bin(op, l, r)) + rest == PostfixTokens(l) + (PostfixTokens(r) + ([[op]] + rest))
  {
    var a, b, c := PostfixTokens(l), PostfixTokens(r), [[op]];
    assert (a + b + c) + rest == a + (b + (c + rest));
  }

  /** EvalTree for an operation: both operands, then the operator. */
  lemma {:induction false} EvalBin(m: Libm, op: char, l: Expr, r: Expr, rest: seq<string>, st: seq<real>)
    requires Proper(Bin(op, l, r)) && |st| + Width(Bin(op, l, r)) <= Stacks.Capacity
    ensures var v := Value(m, Bin(op, l, r));
      if v.Some? then EvalFrom(m, PostfixTokens(Bin(op, l, r)) + rest, st) == EvalFrom(m, rest, st + [v.value])
      else EvalFrom(m, PostfixTokens(Bin(op, l, r)) + rest, st).outcome == Fail(MathError)
    decreases Bin(op, l, r), 1
  {
    ValueBin(m, op, l, r);
    match (Value(m, l), Value(m, r))
    case (Some(x), Some(y)) =>
      EvalOperands(m, op, l, r, rest, st, x, y);
      EvalOperator(m, [op], rest, st, x, y);
    case (Some(x), None) =>
      EvalRightFails(m, op, l, r, rest, st, x);
    case (None, _) =>
      EvalLeftFails(m, op, l, r, rest, st);
  }

  /** The operands of an operation are evaluated left, then right, and
      left on the stack for the operator. */
  lemma {:induction false} EvalOperands(m: Libm, op: char, l: Expr, r: Expr, rest: seq<string>, st: seq<real>, x: real, y: real)
    requires Proper(Bin(op, l, r)) && |st| + Width(Bin(op, l, r)) <= Stacks.Capacity
    requires Value(m, l) == Some(x) && Value(m, r) == Some(y)
    ensures EvalFrom(m, PostfixTokens(Bin(op, l, r)) + rest, st) == EvalFrom(m, [[op]] + rest, st + [x, y])
    decreases Bin(op, l, r), 0
  {
    var tail := [[op]] + rest;
    BinTokens(op, l, r, rest);
    EvalTree(m, l, PostfixTokens(r) + tail, st);
    EvalTree(m, r, tail, st + [x]);
    assert st + [x] + [y] == st + [x, y];
  }

  /** An undefined right operand is a math error. */
  lemma {:induction false} EvalRightFails(m: Libm, op: char, l: Expr, r: Expr, rest: seq<string>, st: seq<real>, x: real)
    requires Proper(Bin(op, l, r)) && |st| + Width(Bin(op, l, r)) <= Stacks.Capacity
    requires Value(m, l) == Some(x) && Value(m, r).None?
    ensures EvalFrom(m, PostfixTokens(Bin(op, l, r)) + rest, st).outcome == Fail(MathError)
    decreases Bin(op, l, r), 0
  {
    var tail := [[op]] + rest;
    BinTokens(op, l, r, rest);
    EvalTree(m, l, PostfixTokens(r) + tail, st);
    EvalTree(m, r, tail, st + [x]);
  }

  /** An undefined left operand is a math error. */
  lemma {:induction false} EvalLeftFails(m: Libm, op: char, l: Expr, r: Expr, rest: seq<string>, st: seq<real>)
    requires Proper(Bin(op, l, r)) && |st| + Width(Bin(op, l, r)) <= Stacks.Capacity
    requires Value(m, l).None?
    ensures EvalFrom(m, PostfixTokens(Bin(op, l, r)) + rest, st).outcome == Fail(MathError)
    decreases Bin(op, l, r), 0
  {
    BinTokens(op, l, r, rest);
    EvalTree(m, l, PostfixTokens(r) + ([[op]] + rest), st);
  }

  // ---------------------------------------------------------------------
  // The converter on a tree's parenthesised text
  // ---------------------------------------------------------------------

  lemma AtSub(s: string, i: nat, w: string, a: nat, b: nat)
    requires At(s, i, w) && a <= b <= |w|
    ensures At(s, i + a, w[a..b])
  {
    forall k | 0 <= k < b - a
      ensures s[i + a..i + b][k] == w[a..b][k]
    {
      assert s[i..i + |w|][a + k] == s[i + a + k];
    }
  }

  /** Where the parts of "( l op r )" stand. */
  lemma BinLayout(op: char, l: string, r: string)
    ensures var w := Parenthesize(l, [op], r); var L, R := |l|, |r|;
      && |w| == L + R + 7
      && w[0] == '(' && w[1] == ' ' && w[2 + L] == ' ' && w[3 + L] == op && w[4 + L] == ' '
      && w[5 + L + R] == ' ' && w[6 + L + R] == ')'
      && w[2..2 + L] == l && w[5 + L..5 + L + R] == r
  {
    var w := Parenthesize(l, [op], r);
    assert w == "( " + l + " " + [op] + " " + r + " )";
  }

  /** Where the parts of "f( x )" stand. */
  lemma CallLayout(f: string, x: string)
    ensures var w := Call(f, x); var F, X := |f|, |x|;
      && |w| == F + X + 4
      && w[..F] == f && w[F] == '(' && w[F + 1] == ' ' && w[F + 2 + X] == ' ' && w[F + 3 + X] == ')'
      && w[F + 2..F + 2 + X] == x
  {
    var w := Call(f, x);
    assert w == f + "( " + x + " )";
  }

  /** The ')' that closes "( l op r )": the operator is written, the '('
      dropped, and nothing under it is touched. */
  lemma CloseBin(q: State, st: seq<char>, op: char)
    requires q.stack == st + ['(', op] && IsOperator(op)
    requires st == [] || !IsAlpha(st[|st| - 1])
    ensures Close(q) == Next(State(q.i + 1, st, q.out + [[op]], false))
  {
    var st1 := st + ['('];
    PopOperator(st, op, q.out);
    assert st1[..|st1| - 1] == st;
  }

  /** ')' over "( op": the operator is written and the '(' reached. */
  lemma PopOperator(st: seq<char>, op: char, out: seq<string>)
    requires IsOperator(op)
    ensures PopToOpen(st + ['(', op], out) == (st + ['('], out + [[op]])
  {
    var full, st1 := st + ['(', op], st + ['('];
    assert full[..|full| - 1] == st1 && full[|full| - 1] == op;
    assert EmitText(op) == [op];
    assert PopToOpen(st1, out + [[op]]) == (st1, out + [[op]]);
  }

  /** The ')' that closes "f( x )": the '(' is dropped and the marker under
      it written back as the function's name. */
  lemma CloseCall(q: State, st: seq<char>, f: string)
    requires IsFunctionName(f) && q.stack == st + [Marker(f), '(']
    ensures Close(q) == Next(State(q.i + 1, st, q.out + [f], false))
  {
    MarkerRoundTrip(f, Marker(f));
    var st2 := st + [Marker(f)];
    assert q.stack[..|q.stack| - 1] == st2;
    assert st2[..|st2| - 1] == st;
  }

  /** "( " pushes a '(' and expects an operand. */
  lemma OpenSpace(s: string, q: State)
    requires q.i + 1 < |s| && s[q.i] == '(' && s[q.i + 1] == ' ' && |q.stack| < Stacks.Capacity
    ensures Run(s, q) == Run(s, State(q.i + 2, q.stack + ['('], q.out, true))
  {
    RunOpen(s, q);
    RunSpace(s, State(q.i + 1, q.stack + ['('], q.out, true));
  }

  /** " op " after an operand in parentheses: the operator is pushed over
      the '('. */
  lemma SpaceOperatorSpace(s: string, q: State, op: char)
    requires q.i + 2 < |s| && s[q.i] == ' ' && s[q.i + 1] == op && s[q.i + 2] == ' '
    requires IsOperator(op) && !q.expecting
    requires q.stack != [] && q.stack[|q.stack| - 1] == '(' && |q.stack| < Stacks.Capacity
    ensures Run(s, q) == Run(s, State(q.i + 3, q.stack + [op], q.out, true))
  {
    RunSpace(s, q);
    var q1 := q.(i := q.i + 1);
    RunOperator(s, q1);
    assert Incoming(q1, op) == State(q.i + 2, q.stack + [op], q.out, true);
    RunSpace(s, State(q.i + 2, q.stack + [op], q.out, true));
  }

  /** " )" closing "( l op r )". */
  lemma SpaceCloseBin(s: string, q: State, st: seq<char>, op: char)
    requires q.i + 1 < |s| && s[q.i] == ' ' && s[q.i + 1] == ')'
    requires q.stack == st + ['(', op] && IsOperator(op)
    requires st == [] || !IsAlpha(st[|st| - 1])
    ensures Run(s, q) == Run(s, State(q.i + 2, st, q.out + [[op]], false))
  {
    RunSpace(s, q);
    var q1 := q.(i := q.i + 1);
    CloseBin(q1, st, op);
    RunClose(s, q1);
  }

  /** "f( " pushes the function's marker and a '('. */
  lemma WordOpenSpace(s: string, q: State, f: string)
    requires At(s, q.i, f) && IsFunctionName(f) && |q.stack| + 1 < Stacks.Capacity
    requires q.i + |f| + 1 < |s| && s[q.i + |f|] == '(' && s[q.i + |f| + 1] == ' '
    ensures Run(s, q) == Run(s, State(q.i + |f| + 2, q.stack + [Marker(f), '('], q.out, true))
  {
    RunWord(s, q, f);
    var q1 := q.(i := q.i + |f|, stack := q.stack + [Marker(f)]);
    RunOpen(s, q1);
    assert q1.stack + ['('] == q.stack + [Marker(f), '('];
    RunSpace(s, State(q.i + |f| + 1, q.stack + [Marker(f), '('], q.out, true));
  }

  /** " )" closing "f( x )". */
  lemma SpaceCloseCall(s: string, q: State, st: seq<char>, f: string)
    requires q.i + 1 < |s| && s[q.i] == ' ' && s[q.i + 1] == ')'
    requires IsFunctionName(f) && q.stack == st + [Marker(f), '(']
    ensures Run(s, q) == Run(s, State(q.i + 2, st, q.out + [f], false))
  {
    RunSpace(s, q);
    var q1 := q.(i := q.i + 1);
    CloseCall(q1, st, f);
    RunClose(s, q1);
  }

  /** The state after a tree's text is converted: an operand was read, the
      operator stack is as it was and the tree's postfix tokens are
      written. */
  function After(q: State, e: Expr): State {
    State(q.i + |Show(e)|, q.stack, q.out + PostfixTokens(e), false)
  }

  /** Converting a tree's text from a state that expects an operand writes
      the tree's postfix tokens and leaves the operator stack as it was. */
  lemma {:induction false} ConvertTree(s: string, e: Expr, q: State)
    requires Proper(e) && At(s, q.i, Show(e)) && q.expecting
    requires q.i + |Show(e)| == |s| || s[q.i + |Show(e)|] == ' '
    requires |q.stack| + Pending(e) <= Stacks.Capacity
    requires q.stack == [] || !IsAlpha(q.stack[|q.stack| - 1])
    ensures Run(s, q) == Run(s, After(q, e))
    decreases e, 2
  {
    match e
    case Num(t) => RunNumber(s, q, t);
    case Bin(op, l, r) => ConvertBin(s, op, l, r, q);
    case Fun(f, a) => ConvertCall(s, f, a, q);
  }

  lemma {:induction false} ConvertBin(s: string, op: char, l: Expr, r: Expr, q: State)
    requires Proper(Bin(op, l, r)) && At(s, q.i, Show(Bin(op, l, r))) && q.expecting
    requires |q.stack| + Pending(Bin(op, l, r)) <= Stacks.Capacity
    requires q.stack == [] || !IsAlpha(q.stack[|q.stack| - 1])
    ensures Run(s, q) == Run(s, After(q, Bin(op, l, r)))
    decreases Bin(op, l, r), 1
  {
    var q1 := State(q.i + 2, q.stack + ['('], q.out, true);
    BinParts(op, l, r, q, q1);
    ConvertLeft(s, op, l, r, q, q1);
    ConvertRight(s, op, l, r, q, After(q1, l), After(q, Bin(op, l, r)));
  }

  /** "( l" at the start of "( l op r )": the '(' is pushed and the left
      operand converted. */
  lemma {:induction false} ConvertLeft(s: string, op: char, l: Expr, r: Expr, q: State, q1: State)
    requires Proper(l) && At(s, q.i, Show(Bin(op, l, r)))
    requires |q.stack| + 2 <= Stacks.Capacity && |q1.stack| + Pending(l) <= Stacks.Capacity
    requires q1 == State(q.i + 2, q.stack + ['('], q.out, true)
    ensures Run(s, q) == Run(s, After(q1, l))
    decreases Bin(op, l, r), 0
  {
    var sl, sr := Show(l), Show(r);
    BinInner(s, op, sl, sr, q.i);
    assert q1.stack[|q1.stack| - 1] == '(';
    ConvertTree(s, l, q1);
    BinEnter(s, op, sl, sr, q, q1);
  }

  /** What the parts of "( l op r )" may push on the stack, and what the
      whole writes: the left operand's tokens, then the right's, then the
      operator. */
  lemma BinParts(op: char, l: Expr, r: Expr, q: State, q1: State)
    requires |q.stack| + Pending(Bin(op, l, r)) <= Stacks.Capacity
    requires q1 == State(q.i + 2, q.stack + ['('], q.out, true)
    ensures |q.stack| + 2 <= Stacks.Capacity && |q1.stack| + Pending(l) <= Stacks.Capacity
    ensures q1.stack[|q1.stack| - 1] == '('
    ensures After(q, Bin(op, l, r))
      == State(q.i + |Show(Bin(op, l, r))|, q.stack, After(q1, l).out + PostfixTokens(r) + [[op]], false)
  {
    assert q.out + PostfixTokens(Bin(op, l, r)) == q.out + PostfixTokens(l) + PostfixTokens(r) + [[op]];
  }

  /** The rest of "( l op r )" once the left operand is converted: the
      operator, the right operand and the closing parenthesis. */
  lemma {:induction false} ConvertRight(s: string, op: char, l: Expr, r: Expr, q: State, qa: State, qb: State)
    requires Proper(r) && IsOperator(op) && At(s, q.i, Show(Bin(op, l, r)))
    requires |q.stack| + Pending(Bin(op, l, r)) <= Stacks.Capacity
    requires q.stack == [] || !IsAlpha(q.stack[|q.stack| - 1])
    requires qa.i == q.i + 2 + |Show(l)| && qa.stack == q.stack + ['('] && !qa.expecting
    requires qb == State(q.i + |Show(Bin(op, l, r))|, q.stack, qa.out + PostfixTokens(r) + [[op]], false)
    ensures Run(s, qa) == Run(s, qb)
    decreases Bin(op, l, r), 0
  {
    var sl, sr := Show(l), Show(r);
    var q3 := State(qa.i + 3, q.stack + ['(', op], qa.out, true);
    var q4 := After(q3, r);
    BinInner(s, op, sl, sr, q.i);
    assert |q.stack| + 2 <= Stacks.Capacity && |q3.stack| + Pending(r) <= Stacks.Capacity;
    assert q3.stack[|q3.stack| - 1] == op && !IsAlpha(op);
    assert q4.i == q.i + 5 + |sl| + |sr| && qb.out == q4.out + [[op]];
    BinLeave(s, op, sl, sr, q.i, q.stack, q4, qb);
    ConvertTree(s, r, q3);
    BinMiddle(s, op, sl, sr, q.i, q.stack, qa, q3);
  }

  /** The operands of "( l op r )" stand at offsets 2 and |l| + 5, each
      followed by a blank. */
  lemma BinInner(s: string, op: char, l: string, r: string, i: nat)
    requires At(s, i, Parenthesize(l, [op], r))
    ensures At(s, i + 2, l) && s[i + 2 + |l|] == ' '
    ensures At(s, i + 5 + |l|, r) && s[i + 5 + |l| + |r|] == ' '
    ensures |Parenthesize(l, [op], r)| == |l| + |r| + 7
  {
    var w := Parenthesize(l, [op], r);
    var L, R := |l|, |r|;
    BinLayout(op, l, r);
    AtSub(s, i, w, 2, 2 + L);
    AtChar(s, i, w, 2 + L);
    AtSub(s, i, w, 5 + L, 5 + L + R);
    AtChar(s, i, w, 5 + L + R);
  }

  /** "( " at the start of "( l op r )". */
  lemma BinEnter(s: string, op: char, l: string, r: string, q: State, q1: State)
    requires At(s, q.i, Parenthesize(l, [op], r)) && |q.stack| + 2 <= Stacks.Capacity
    requires q1 == State(q.i + 2, q.stack + ['('], q.out, true)
    ensures Run(s, q) == Run(s, q1)
  {
    var w := Parenthesize(l, [op], r);
    BinLayout(op, l, r);
    AtChar(s, q.i, w, 0);
    AtChar(s, q.i, w, 1);
    OpenSpace(s, q);
  }

  /** " op " between the operands of "( l op r )". */
  lemma BinMiddle(s: string, op: char, l: string, r: string, i: nat, st: seq<char>, qa: State, qb: State)
    requires At(s, i, Parenthesize(l, [op], r)) && IsOperator(op) && |st| + 2 <= Stacks.Capacity
    requires qa.i == i + 2 + |l| && qa.stack == st + ['('] && !qa.expecting
    requires qb == State(qa.i + 3, st + ['(', op], qa.out, true)
    ensures Run(s, qa) == Run(s, qb)
  {
    var w := Parenthesize(l, [op], r);
    var L := |l|;
    BinLayout(op, l, r);
    AtChar(s, i, w, 2 + L);
    AtChar(s, i, w, 3 + L);
    AtChar(s, i, w, 4 + L);
    SpaceOperatorSpace(s, qa, op);
    assert st + ['('] + [op] == st + ['(', op];
  }

  /** " )" at the end of "( l op r )". */
  lemma BinLeave(s: string, op: char, l: string, r: string, i: nat, st: seq<char>, qa: State, qb: State)
    requires At(s, i, Parenthesize(l, [op], r)) && IsOperator(op)
    requires st == [] || !IsAlpha(st[|st| - 1])
    requires qa.i == i + 5 + |l| + |r| && qa.stack == st + ['(', op]
    requires qb == State(i + |Parenthesize(l, [op], r)|, st, qa.out + [[op]], false)
    ensures Run(s, qa) == Run(s, qb)
  {
    var w := Parenthesize(l, [op], r);
    var L, R := |l|, |r|;
    BinLayout(op, l, r);
    AtChar(s, i, w, 5 + L + R);
    AtChar(s, i, w, 6 + L + R);
    SpaceCloseBin(s, qa, st, op);
  }

  lemma {:induction false} ConvertCall(s: string, f: string, a: Expr, q: State)
    requires Proper(Fun(f, a)) && At(s, q.i, Show(Fun(f, a))) && q.expecting
    requires |q.stack| + Pending(Fun(f, a)) <= Stacks.Capacity
    ensures Run(s, q) == Run(s, After(q, Fun(f, a)))
    decreases Fun(f, a), 1
  {
    var q1 := State(q.i + |f| + 2, q.stack + [Marker(f), '('], q.out, true);
    CallParts(f, a, q, q1);
    ConvertArgument(s, f, a, q, q1);
    CallInner(s, f, Show(a), q.i);
    CallLeave(s, f, Show(a), q.i, q.stack, After(q1, a), After(q, Fun(f, a)));
  }

  /** What the argument of "f( x )" may push on the stack, and what the
      whole writes: the argument's tokens, then the name. */
  lemma CallParts(f: string, a: Expr, q: State, q1: State)
    requires IsFunctionName(f) && |q.stack| + Pending(Fun(f, a)) <= Stacks.Capacity
    requires q1 == State(q.i + |f| + 2, q.stack + [Marker(f), '('], q.out, true)
    ensures |q.stack| + 2 <= Stacks.Capacity && |q1.stack| + Pending(a) <= Stacks.Capacity
    ensures q1.stack[|q1.stack| - 1] == '('
    ensures After(q, Fun(f, a)) == State(q.i + |Show(Fun(f, a))|, q.stack, After(q1, a).out + [f], false)
  {
  }

  /** "f( x" at the start of "f( x )": the marker and the '(' are pushed and
      the argument converted. */
  lemma {:induction false} ConvertArgument(s: string, f: string, a: Expr, q: State, q1: State)
    requires IsFunctionName(f) && Proper(a) && At(s, q.i, Show(Fun(f, a)))
    requires |q.stack| + 2 <= Stacks.Capacity && |q1.stack| + Pending(a) <= Stacks.Capacity
    requires q1 == State(q.i + |f| + 2, q.stack + [Marker(f), '('], q.out, true)
    ensures Run(s, q) == Run(s, After(q1, a))
    decreases Fun(f, a), 0
  {
    var sa := Show(a);
    CallInner(s, f, sa, q.i);
    assert q1.stack[|q1.stack| - 1] == '(';
    ConvertTree(s, a, q1);
    CallEnter(s, f, sa, q, q1);
  }

  /** The argument of "f( x )" stands at offset |f| + 2, followed by a blank. */
  lemma CallInner(s: string, f: string, x: string, i: nat)
    requires At(s, i, Call(f, x))
    ensures At(s, i + |f| + 2, x) && s[i + |f| + 2 + |x|] == ' '
    ensures |Call(f, x)| == |f| + |x| + 4
  {
    var w := Call(f, x);
    CallLayout(f, x);
    AtSub(s, i, w, |f| + 2, |f| + 2 + |x|);
    AtChar(s, i, w, |f| + 2 + |x|);
  }

  /** "f( " at the start of "f( x )". */
  lemma CallEnter(s: string, f: string, x: string, q: State, q1: State)
    requires At(s, q.i, Call(f, x)) && IsFunctionName(f) && |q.stack| + 2 <= Stacks.Capacity
    requires q1 == State(q.i + |f| + 2, q.stack + [Marker(f), '('], q.out, true)
    ensures Run(s, q) == Run(s, q1)
  {
    var w := Call(f, x);
    var F := |f|;
    CallLayout(f, x);
    AtSub(s, q.i, w, 0, F);
    assert w[0..F] == f;
    AtChar(s, q.i, w, F);
    AtChar(s, q.i, w, F + 1);
    WordOpenSpace(s, q, f);
  }

  /** " )" at the end of "f( x )". */
  lemma CallLeave(s: string, f: string, x: string, i: nat, st: seq<char>, qa: State, qb: State)
    requires At(s, i, Call(f, x)) && IsFunctionName(f)
    requires qa.i == i + |f| + 2 + |x| && qa.stack == st + [Marker(f), '(']
    requires qb == State(i + |Call(f, x)|, st, qa.out + [f], false)
    ensures Run(s, qa) == Run(s, qb)
  {
    var w := Call(f, x);
    var F, X := |f|, |x|;
    CallLayout(f, x);
    AtChar(s, i, w, F + 2 + X);
    AtChar(s, i, w, F + 3 + X);
    SpaceCloseCall(s, qa, st, f);
  }

  // ---------------------------------------------------------------------
  // The three operations on a tree
  // ---------------------------------------------------------------------

  /** The postfix tokens of a tree are words the readers classify as a
      number, an operator or a function name. */
  lemma {:induction false} PostfixTokensReadable(e: Expr)
    requires Proper(e)
    ensures forall t <- PostfixTokens(e) :: IsReadable(t)
    decreases e
  {
    match e
    case Num(t) => LiteralKind(t);
    case Bin(op, l, r) =>
      PostfixTokensReadable(l);
      PostfixTokensReadable(r);
    case Fun(f, a) =>
      PostfixTokensReadable(a);
  }

  /** converter_infixo_para_posfixo on the fully parenthesised text of a
      tree writes the tree's postfix tokens, one blank apart. */
  lemma ConvertShown(e: Expr)
    requires Proper(e) && Pending(e) <= Stacks.Capacity
    ensures ToPostfix(Show(e)) == Some(Join(PostfixTokens(e)))
  {
    var s := Show(e);
    assert At(s, 0, s) by { assert s[0..|s|] == s; }
    ConvertTree(s, e, Start);
    assert After(Start, e) == State(|s|, [], PostfixTokens(e), false);
  }

  /** converter_posfixo_para_infixo on a tree's postfix text gives its fully
      parenthesised text back. */
  lemma RebuildShown(e: Expr)
    requires Proper(e) && Width(e) <= Stacks.Capacity
    ensures Rebuild(Join(PostfixTokens(e))) == Some(Show(e))
  {
    PostfixTokensReadable(e);
    TokensJoin(PostfixTokens(e));
    RebuildTree(e, [], []);
    assert PostfixTokens(e) + [] == PostfixTokens(e);
  }

  /** calcular_valor_posfixo on a tree's postfix text gives the tree's
      value, or a math error where the value is undefined. */
  lemma EvaluateShown(m: Libm, e: Expr)
    requires Proper(e) && Width(e) <= Stacks.Capacity
    ensures Evaluate(m, Join(PostfixTokens(e))) ==
      if Value(m, e).Some? then Ok(Value(m, e).value) else Fail(MathError)
  {
    PostfixTokensReadable(e);
    TokensJoin(PostfixTokens(e));
    EvalTree(m, e, [], []);
    assert PostfixTokens(e) + [] == PostfixTokens(e);
  }

  /** The round trip of the display path: rebuilding a tree's postfix text
      and converting the result again gives the same postfix text. */
  lemma PostfixRoundTrip(e: Expr)
    requires Proper(e) && Width(e) <= Stacks.Capacity && Pending(e) <= Stacks.Capacity
    ensures var p := Join(PostfixTokens(e));
      Rebuild(p).Some? && ToPostfix(Rebuild(p).value) == Some(p)
  {
    RebuildShown(e);
    ConvertShown(e);
  }
}
