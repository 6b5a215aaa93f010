/** Text with as few parentheses as precedence and grouping allow, as a
    person writes it ("7 * 2 + 4", "8 - 3 - 2", "2 ^ 3 ^ 2"), and the
    proof that `converter_infixo_para_posfixo` reads such text by the
    precedence and grouping rules of `expressao.h`: converting it gives
    the tree's postfix text, so evaluating the result gives the tree's
    value. */
module Minimal {
  import opened Wrappers
  import opened CType
  import opened Symbols
  import opened Arith
  import opened Text
  import opened Postfix
  import opened Infix
  import opened Trees
  import Stacks

  /** A left operand is written in parentheses when its operator binds less
      tightly than `op`, or as tightly while `op` groups to the right
      ('^'). */
  predicate LeftWrapped(op: char, l: Expr) {
    l.Bin? && (Precedence(l.op) < Precedence(op) || (Precedence(l.op) == Precedence(op) && op == '^'))
  }

  /** A right operand is written in parentheses when its operator binds
      less tightly than `op`, or as tightly while `op` groups to the left
      ('+', '-', '*', '/', '%'). */
  predicate RightWrapped(op: char, r: Expr) {
    r.Bin? && (Precedence(r.op) < Precedence(op) || (Precedence(r.op) == Precedence(op) && op != '^'))
  }

  /** "( x )" */
  function Paren(x: string): string {
    "( " + x + " )"
  }

  /** The tree with the fewest parentheses: operators one blank away from
      their operands, a function's argument in its own parentheses. */
  function ShowMin(e: Expr): string
    decreases e, 0
  {
    match e
    case Num(t) => t
    case Bin(op, l, r) => Operand(l, LeftWrapped(op, l)) + " " + [op] + " " + Operand(r, RightWrapped(op, r))
    case Fun(f, a) => Call(f, ShowMin(a))
  }

  /** An operand, in parentheses or not. */
  function Operand(c: Expr, wrapped: bool): string
    decreases c, 1
  {
    if wrapped then Paren(ShowMin(c)) else ShowMin(c)
  }

  /** The operators still on the converter's stack once the text of `e` is
      read: its own operator, then those of a right operand written without
      parentheses. */
  function Pend(e: Expr): seq<char>
    decreases e, 0
  {
    match e
    case Bin(op, l, r) => [op] + PendOf(r, RightWrapped(op, r))
    case _ => []
  }

  function PendOf(c: Expr, wrapped: bool): seq<char>
    decreases c, 1
  {
    if wrapped then [] else Pend(c)
  }

  /** The tokens written once the text of `e` is read. */
  function Done(e: Expr): seq<string>
    decreases e, 0
  {
    match e
    case Bin(op, l, r) => PostfixTokens(l) + DoneOf(r, RightWrapped(op, r))
    case _ => PostfixTokens(e)
  }

  function DoneOf(c: Expr, wrapped: bool): seq<string>
    decreases c, 1
  {
    if wrapped then PostfixTokens(c) else Done(c)
  }

  /** The most operator-stack entries held while the text of `e` is
      read. */
  function MinPending(e: Expr): nat
    decreases e, 0
  {
    match e
    case Num(t) => 0
    case Bin(op, l, r) =>
      var a, b := OperandPending(l, LeftWrapped(op, l)), 1 + OperandPending(r, RightWrapped(op, r));
      if a < b then b else a
    case Fun(f, a) => 2 + MinPending(a)
  }

  function OperandPending(c: Expr, wrapped: bool): nat
    decreases c, 1
  {
    if wrapped then 1 + MinPending(c) else MinPending(c)
  }

  // ---------------------------------------------------------------------
  // The pending operators
  // ---------------------------------------------------------------------

  /** The pending entries are operators. */
  lemma {:induction false} PendOperators(e: Expr)
    requires Proper(e)
    ensures forall k :: 0 <= k < |Pend(e)| ==> IsOperator(Pend(e)[k])
    decreases e
  {
    match e
    case Num(_) =>
    case Fun(_, _) =>
    case Bin(op, l, r) =>
      var rest := PendOf(r, RightWrapped(op, r));
      if RightWrapped(op, r) {
        assert rest == [];
      } else {
        assert rest == Pend(r);
        PendOperators(r);
      }
      assert forall k :: 0 <= k < |rest| ==> IsOperator(rest[k]);
      assert Pend(e) == [op] + rest;
  }

  /** Every pending entry of an operation whose operator goes before `op`
      goes before `op` too: along the right edge, the precedences do not
      fall. */
  lemma {:induction false} PendGoesFirst(e: Expr, op: char)
    requires Proper(e) && e.Bin? && IsOperator(op) && GoesFirst(e.op, op)
    ensures forall k :: 0 <= k < |Pend(e)| ==> GoesFirst(Pend(e)[k], op)
    decreases e
  {
    var r := e.right;
    var rest := PendOf(r, RightWrapped(e.op, r));
    if RightWrapped(e.op, r) {
      assert rest == [];
    } else if !r.Bin? {
      assert rest == Pend(r) == [];
    } else {
      assert rest == Pend(r);
      RightGoesFirst(e.op, r.op, op);
      PendGoesFirst(r, op);
    }
    assert forall k :: 0 <= k < |rest| ==> GoesFirst(rest[k], op);
    assert Pend(e) == [e.op] + rest;
  }

  /** An operator that binds at least as tightly as `p` on the right of
      `p`, where `p` goes before `op`, goes before `op`. */
  lemma RightGoesFirst(p: char, c: char, op: char)
    requires IsOperator(p) && IsOperator(c) && IsOperator(op) && GoesFirst(p, op)
    requires !(Precedence(c) < Precedence(p) || (Precedence(c) == Precedence(p) && p != '^'))
    ensures GoesFirst(c, op)
  {
    if Precedence(c) == Precedence(op) {
      assert Precedence(c) == Precedence(p) && p == '^';
    }
  }

  /** Writing entries one at a time, the bottom one last. */
  lemma {:induction false} EmittedFront(c: char, p: seq<char>)
    ensures Emitted([c] + p) == Emitted(p) + [EmitText(c)]
    decreases |p|
  {
    var x := [c] + p;
    if p != [] {
      var p1 := p[..|p| - 1];
      assert x[..|x| - 1] == [c] + p1 && x[|x| - 1] == p[|p| - 1];
      EmittedFront(c, p1);
    }
  }

  /** What is written plus the pending entries, written top first, is the
      tree's postfix sequence. */
  lemma {:induction false} DoneEmitted(e: Expr)
    requires Proper(e)
    ensures Done(e) + Emitted(Pend(e)) == PostfixTokens(e)
    decreases e, 0
  {
    match e
    case Num(_) =>
    case Fun(_, _) =>
    case Bin(op, l, r) =>
      var w := RightWrapped(op, r);
      DoneOfEmitted(r, w);
      EmittedFront(op, PendOf(r, w));
      assert EmitText(op) == [op];
      calc {
        Done(e) + Emitted(Pend(e));
        PostfixTokens(l) + DoneOf(r, w) + (Emitted(PendOf(r, w)) + [[op]]);
        PostfixTokens(l) + (DoneOf(r, w) + Emitted(PendOf(r, w))) + [[op]];
        PostfixTokens(l) + PostfixTokens(r) + [[op]];
      }
  }

  lemma {:induction false} DoneOfEmitted(c: Expr, wrapped: bool)
    requires Proper(c)
    ensures DoneOf(c, wrapped) + Emitted(PendOf(c, wrapped)) == PostfixTokens(c)
    decreases c, 1
  {
    if !wrapped {
      DoneEmitted(c);
    }
  }

  // ---------------------------------------------------------------------
  // The two stack loops over the pending entries
  // ---------------------------------------------------------------------

  /** The operator loop writes every pending entry that goes first and
      stops at the entry below them. */
  lemma {:induction false} PopAll(st: seq<char>, p: seq<char>, out: seq<string>, op: char)
    requires forall k :: 0 <= k < |p| ==> GoesFirst(p[k], op)
    requires st == [] || !GoesFirst(st[|st| - 1], op)
    ensures PopWhile(st + p, out, op) == (st, out + Emitted(p))
    decreases |p|
  {
    if p == [] {
      assert st + p == st && out + Emitted(p) == out;
      PopWhileDone(st, out, op);
    } else {
      var full, p1 := st + p, p[..|p| - 1];
      assert full[..|full| - 1] == st + p1 && full[|full| - 1] == p[|p| - 1];
      PopWhileStep(full, out, op);
      PopAll(st, p1, out + [EmitText(p[|p| - 1])], op);
      assert out + [EmitText(p[|p| - 1])] + Emitted(p1) == out + Emitted(p);
    }
  }

  /** The ')' loop writes every pending operator and stops at the '(' below
      them. */
  lemma {:induction false} PopPending(base: seq<char>, p: seq<char>, out: seq<string>)
    requires base != [] && base[|base| - 1] == '('
    requires forall k :: 0 <= k < |p| ==> IsOperator(p[k])
    ensures PopToOpen(base + p, out) == (base, out + Emitted(p))
    decreases |p|
  {
    if p == [] {
      assert base + p == base && out + Emitted(p) == out;
      PopToOpenDone(base, out);
    } else {
      var full, p1 := base + p, p[..|p| - 1];
      assert full[..|full| - 1] == base + p1 && full[|full| - 1] == p[|p| - 1];
      PopToOpenStep(full, out);
      PopPending(base, p1, out + [EmitText(p[|p| - 1])]);
      assert out + [EmitText(p[|p| - 1])] + Emitted(p1) == out + Emitted(p);
    }
  }

  lemma Associate<T>(a: seq<T>, b: seq<T>, c: seq<T>)
    ensures a + b + c == a + (b + c)
  {
  }

  // ---------------------------------------------------------------------
  // Where the parts of the text stand
  // ---------------------------------------------------------------------

  lemma BinText(op: char, a: string, b: string)
    ensures var w := a + " " + [op] + " " + b;
      && |w| == |a| + |b| + 3
      && w[0..|a|] == a && w[|a|] == ' ' && w[|a| + 1] == op && w[|a| + 2] == ' '
      && w[|a| + 3..|w|] == b
  {
  }

  lemma ParenText(x: string)
    ensures var w := Paren(x);
      && |w| == |x| + 4
      && w[0] == '(' && w[1] == ' ' && w[2..2 + |x|] == x && w[2 + |x|] == ' ' && w[3 + |x|] == ')'
  {
  }

  /** " op " after an operand: the operator loop leaves `st` and `out`,
      and the operator is pushed. */
  lemma SpacedOperator(s: string, q: State, op: char, st: seq<char>, out: seq<string>)
    requires q.i + 2 < |s| && s[q.i] == ' ' && s[q.i + 1] == op && s[q.i + 2] == ' '
    requires IsOperator(op) && !q.expecting
    requires PopWhile(q.stack, q.out, op) == (st, out) && |st| < Stacks.Capacity
    ensures Run(s, q) == Run(s, State(q.i + 3, st + [op], out, true))
  {
    RunSpace(s, q);
    var q1 := q.(i := q.i + 1);
    RunOperator(s, q1);
    assert Incoming(q1, op) == State(q.i + 2, st + [op], out, true);
    RunSpace(s, State(q.i + 2, st + [op], out, true));
  }

  // ---------------------------------------------------------------------
  // Reading the text
  // ---------------------------------------------------------------------

  /** Whether the stack top lets the operators of `e` stay on the stack:
      it is absent, or it does not go before the operator of `e`. */
  predicate Admits(st: seq<char>, e: Expr) {
    e.Bin? ==> (st == [] || !GoesFirst(st[|st| - 1], e.op))
  }

  /** No function marker on top of the stack. */
  predicate NoMarkerOnTop(st: seq<char>) {
    st == [] || !IsAlpha(st[|st| - 1])
  }

  /** The text of `e` stands at `q.i`, followed by the end or a blank, and
      the converter is ready to read it as an operand. */
  predicate ReadyMin(s: string, e: Expr, q: State) {
    && Proper(e) && At(s, q.i, ShowMin(e)) && q.expecting
    && (q.i + |ShowMin(e)| == |s| || s[q.i + |ShowMin(e)|] == ' ')
    && |q.stack| + MinPending(e) <= Stacks.Capacity
    && NoMarkerOnTop(q.stack) && Admits(q.stack, e)
  }

  /** The same for an operand, in parentheses or not. */
  predicate ReadyOperand(s: string, c: Expr, wrapped: bool, q: State) {
    && Proper(c) && At(s, q.i, Operand(c, wrapped)) && q.expecting
    && (q.i + |Operand(c, wrapped)| == |s| || s[q.i + |Operand(c, wrapped)|] == ' ')
    && |q.stack| + OperandPending(c, wrapped) <= Stacks.Capacity
    && NoMarkerOnTop(q.stack) && (!wrapped ==> Admits(q.stack, c))
  }

  /** The same for "( x )". */
  predicate ReadyWrapped(s: string, c: Expr, q: State) {
    && Proper(c) && At(s, q.i, Paren(ShowMin(c))) && q.expecting
    && |q.stack| + 1 + MinPending(c) <= Stacks.Capacity
    && NoMarkerOnTop(q.stack)
  }

  /** The state once the text of `e` is read from `q`. */
  function Read(q: State, e: Expr): State {
    State(q.i + |ShowMin(e)|, q.stack + Pend(e), q.out + Done(e), false)
  }

  /** The state once an operand, in parentheses or not, is read from
      `q`. */
  function ReadOf(q: State, c: Expr, wrapped: bool): State {
    State(q.i + |Operand(c, wrapped)|, q.stack + PendOf(c, wrapped), q.out + DoneOf(c, wrapped), false)
  }

  /** The state after "( ". */
  function Inside(q: State): State {
    State(q.i + 2, q.stack + ['('], q.out, true)
  }

  /** The state after "f( ". */
  function CallInside(q: State, f: string): State
    requires IsFunctionName(f)
  {
    State(q.i + |f| + 2, q.stack + [Marker(f), '('], q.out, true)
  }

  /** The state after "l op " of "l op r". */
  function BinMid(q: State, e: Expr): State
    requires e.Bin?
  {
    State(q.i + |Operand(e.left, LeftWrapped(e.op, e.left))| + 3, q.stack + [e.op], q.out + PostfixTokens(e.left), true)
  }

  /** The converter reads the text of `e` from a state that expects an
      operand: the tree's tokens are written except for the pending
      operators, which are left on top of the stack. */
  lemma {:induction false} ReadMin(s: string, e: Expr, q: State)
    requires ReadyMin(s, e, q)
    ensures Run(s, q) == Run(s, Read(q, e))
    decreases e, 3
  {
    match e
    case Num(t) =>
      RunNumber(s, q, t);
      assert q.stack + [] == q.stack;
    case Bin(_, _, _) =>
      ReadBin(s, e, q);
    case Fun(_, _) =>
      ReadCall(s, e, q);
  }

  /** An operand, in parentheses or not. */
  lemma {:induction false} ReadOperand(s: string, c: Expr, wrapped: bool, q: State)
    requires ReadyOperand(s, c, wrapped, q)
    ensures Run(s, q) == Run(s, ReadOf(q, c, wrapped))
    decreases c, 5
  {
    OperandCases(s, c, wrapped, q);
    if wrapped {
      ReadWrapped(s, c, q);
    } else {
      ReadMin(s, c, q);
    }
  }

  /** An operand in parentheses is read as "( x )", one without as the
      text of the tree. */
  lemma OperandCases(s: string, c: Expr, wrapped: bool, q: State)
    requires ReadyOperand(s, c, wrapped, q)
    ensures wrapped ==>
      && ReadyWrapped(s, c, q)
      && ReadOf(q, c, wrapped) == State(q.i + |Paren(ShowMin(c))|, q.stack, q.out + PostfixTokens(c), false)
    ensures !wrapped ==> ReadyMin(s, c, q) && ReadOf(q, c, wrapped) == Read(q, c)
  {
    assert q.stack + [] == q.stack;
  }

  /** The text stands for " )" and the stack holds operators above a
      '('. */
  predicate Shuts(s: string, q: State, st: seq<char>, p: seq<char>) {
    && q.i + 1 < |s| && s[q.i] == ' ' && s[q.i + 1] == ')'
    && q.stack == st + ['('] + p && NoMarkerOnTop(st)
    && forall k :: 0 <= k < |p| ==> IsOperator(p[k])
  }

  /** " )" over pending operators above a '(': they are written top first
      and the '(' is dropped. */
  lemma ShutParen(s: string, q: State, st: seq<char>, p: seq<char>)
    requires Shuts(s, q, st, p)
    ensures Run(s, q) == Run(s, State(q.i + 2, st, q.out + Emitted(p), false))
  {
    var base := st + ['('];
    var q2 := q.(i := q.i + 1);
    RunSpace(s, q);
    PopPending(base, p, q.out);
    CloseFrom(q2, base, q.out + Emitted(p));
    assert base[..|base| - 1] == st;
    assert |base| >= 2 ==> base[|base| - 2] == st[|st| - 1];
    RunClose(s, q2);
  }

  /** The text stands for " )" and the stack holds operators above the
      '(' of a call. */
  predicate ShutsCall(s: string, q: State, st: seq<char>, f: string, p: seq<char>) {
    && q.i + 1 < |s| && s[q.i] == ' ' && s[q.i + 1] == ')'
    && IsFunctionName(f) && q.stack == st + [Marker(f), '('] + p
    && forall k :: 0 <= k < |p| ==> IsOperator(p[k])
  }

  /** " )" over pending operators above the '(' of a call: they are
      written top first, then the function's name. */
  lemma ShutCall(s: string, q: State, st: seq<char>, f: string, p: seq<char>)
    requires ShutsCall(s, q, st, f, p)
    ensures Run(s, q) == Run(s, State(q.i + 2, st, q.out + Emitted(p) + [f], false))
  {
    var base := st + [Marker(f), '('];
    var q2 := q.(i := q.i + 1);
    RunSpace(s, q);
    assert q.stack == base + p;
    PopPending(base, p, q.out);
    CloseFrom(q2, base, q.out + Emitted(p));
    assert base[..|base| - 2] == st && base[|base| - 2] == Marker(f);
    MarkerRoundTrip(f, Marker(f));
    MarkerRoundTrip(EmitText(Marker(f)), Marker(f));
    RunClose(s, q2);
  }

  /** "( x )": the '(' stops the pops inside, and the ')' writes what is
      left pending inside and drops the '('. */
  lemma {:induction false} ReadWrapped(s: string, c: Expr, q: State)
    requires ReadyWrapped(s, c, q)
    ensures Run(s, q) == Run(s, State(q.i + |Paren(ShowMin(c))|, q.stack, q.out + PostfixTokens(c), false))
    decreases c, 4
  {
    WrappedParts(s, c, q);
    OpenSpace(s, q);
    ReadMin(s, c, Inside(q));
    ShutParen(s, Read(Inside(q), c), q.stack, Pend(c));
  }

  /** Where the parts of "( x )" stand, and what the ')' leaves. */
  lemma WrappedParts(s: string, c: Expr, q: State)
    requires ReadyWrapped(s, c, q)
    ensures q.i + 1 < |s| && s[q.i] == '(' && s[q.i + 1] == ' ' && |q.stack| < Stacks.Capacity
    ensures ReadyMin(s, c, Inside(q))
    ensures Shuts(s, Read(Inside(q), c), q.stack, Pend(c))
    ensures var q2 := Read(Inside(q), c);
      State(q2.i + 2, q.stack, q2.out + Emitted(Pend(c)), false)
      == State(q.i + |Paren(ShowMin(c))|, q.stack, q.out + PostfixTokens(c), false)
  {
    WrappedText(s, ShowMin(c), q.i);
    WrappedState(c, q);
  }

  /** Where the parts of "( x )" stand. */
  lemma WrappedText(s: string, x: string, i: nat)
    requires At(s, i, Paren(x))
    ensures i + 1 < |s| && s[i] == '(' && s[i + 1] == ' '
    ensures At(s, i + 2, x) && s[i + 2 + |x|] == ' ' && s[i + 3 + |x|] == ')'
    ensures |Paren(x)| == |x| + 4
  {
    var w, X := Paren(x), |x|;
    ParenText(x);
    AtChar(s, i, w, 0);
    AtChar(s, i, w, 1);
    AtSub(s, i, w, 2, 2 + X);
    AtChar(s, i, w, 2 + X);
    AtChar(s, i, w, 3 + X);
  }

  /** What reading "( x )" does to the stack and the output. */
  lemma WrappedState(c: Expr, q: State)
    requires Proper(c)
    ensures Admits(Inside(q).stack, c)
    ensures Read(Inside(q), c).stack == q.stack + ['('] + Pend(c)
    ensures Read(Inside(q), c).out + Emitted(Pend(c)) == q.out + PostfixTokens(c)
    ensures forall k :: 0 <= k < |Pend(c)| ==> IsOperator(Pend(c)[k])
  {
    PendOperators(c);
    DoneEmitted(c);
    Associate(q.out, Done(c), Emitted(Pend(c)));
  }

  /** "f( x )": as in the parenthesised text, the name is written once the
      ')' is read. */
  lemma {:induction false} ReadCall(s: string, e: Expr, q: State)
    requires e.Fun? && ReadyMin(s, e, q)
    ensures Run(s, q) == Run(s, Read(q, e))
    decreases e, 2
  {
    CallParts(s, e, q);
    CallEnter(s, e.name, ShowMin(e.arg), q, CallInside(q, e.name));
    ReadMin(s, e.arg, CallInside(q, e.name));
    ShutCall(s, Read(CallInside(q, e.name), e.arg), q.stack, e.name, Pend(e.arg));
  }

  /** Where the parts of "f( x )" stand, and what the ')' leaves. */
  lemma CallParts(s: string, e: Expr, q: State)
    requires e.Fun? && ReadyMin(s, e, q)
    ensures IsFunctionName(e.name) && At(s, q.i, Call(e.name, ShowMin(e.arg))) && |q.stack| + 2 <= Stacks.Capacity
    ensures ReadyMin(s, e.arg, CallInside(q, e.name))
    ensures ShutsCall(s, Read(CallInside(q, e.name), e.arg), q.stack, e.name, Pend(e.arg))
    ensures var q2 := Read(CallInside(q, e.name), e.arg);
      State(q2.i + 2, q.stack, q2.out + Emitted(Pend(e.arg)) + [e.name], false) == Read(q, e)
  {
    CallText(s, e.name, ShowMin(e.arg), q.i);
    CallState(e.name, e.arg, q);
  }

  /** Where the parts of "f( x )" stand. */
  lemma CallText(s: string, f: string, x: string, i: nat)
    requires At(s, i, Call(f, x))
    ensures |Call(f, x)| == |f| + |x| + 4
    ensures At(s, i + |f| + 2, x) && s[i + |f| + 2 + |x|] == ' ' && s[i + |f| + 3 + |x|] == ')'
  {
    CallInner(s, f, x, i);
    CallLayout(f, x);
    AtChar(s, i, Call(f, x), |f| + 3 + |x|);
  }

  /** What reading "f( x )" does to the stack and the output. */
  lemma CallState(f: string, a: Expr, q: State)
    requires IsFunctionName(f) && Proper(a)
    ensures Admits(CallInside(q, f).stack, a) && NoMarkerOnTop(CallInside(q, f).stack)
    ensures Read(CallInside(q, f), a).stack == q.stack + [Marker(f), '('] + Pend(a)
    ensures Read(CallInside(q, f), a).out + Emitted(Pend(a)) + [f] == q.out + PostfixTokens(Fun(f, a))
    ensures forall k :: 0 <= k < |Pend(a)| ==> IsOperator(Pend(a)[k])
  {
    PendOperators(a);
    DoneEmitted(a);
    Associate(q.out, Done(a), Emitted(Pend(a)));
  }

  /** "l op r": the left operand and the operator, then the right operand
      over the operator. */
  lemma {:induction false} ReadBin(s: string, e: Expr, q: State)
    requires e.Bin? && ReadyMin(s, e, q)
    ensures Run(s, q) == Run(s, Read(q, e))
    decreases e, 2
  {
    LeftParts(s, e, q);
    LeftRun(s, e, q);
    RightParts(s, e, q);
    RightRead(e, q);
    ReadOperand(s, e.right, RightWrapped(e.op, e.right), BinMid(q, e));
  }

  /** The left operand of "l op r" and the operator stand in the text,
      and the operator writes what the operand leaves pending. */
  predicate LeftReady(s: string, e: Expr, q: State)
    requires e.Bin?
  {
    var c, wrapped := e.left, LeftWrapped(e.op, e.left);
    var qa := ReadOf(q, c, wrapped);
    && ReadyOperand(s, c, wrapped, q)
    && qa.i + 2 < |s| && s[qa.i] == ' ' && s[qa.i + 1] == e.op && s[qa.i + 2] == ' ' && IsOperator(e.op)
    && PopWhile(qa.stack, qa.out, e.op) == (q.stack, BinMid(q, e).out) && |q.stack| < Stacks.Capacity
  }

  /** "l op ": the left operand, then the operator, which writes the
      operand's pending entries and is pushed. */
  lemma {:induction false} LeftRun(s: string, e: Expr, q: State)
    requires e.Bin? && LeftReady(s, e, q)
    ensures Run(s, q) == Run(s, BinMid(q, e))
    decreases e, 1
  {
    var c, wrapped := e.left, LeftWrapped(e.op, e.left);
    ReadOperand(s, c, wrapped, q);
    SpacedOperator(s, ReadOf(q, c, wrapped), e.op, q.stack, BinMid(q, e).out);
  }

  /** The left operand and the operator of "l op r", from the text of the
      whole. */
  lemma LeftParts(s: string, e: Expr, q: State)
    requires e.Bin? && ReadyMin(s, e, q)
    ensures LeftReady(s, e, q)
  {
    LeftText(s, e.op, e.left, e.right, q.i);
    assert MinPending(e) >= 1;
    LeftStack(e.op, e.left, q, BinMid(q, e));
  }

  /** Where the right operand of "l op r" stands, and what reading it
      leaves. */
  lemma RightParts(s: string, e: Expr, q: State)
    requires e.Bin? && ReadyMin(s, e, q)
    ensures ReadyOperand(s, e.right, RightWrapped(e.op, e.right), BinMid(q, e))
  {
    var op, l, r := e.op, e.left, e.right;
    var qb, wr := BinMid(q, e), RightWrapped(op, r);
    var sr := Operand(r, wr);
    RightText(s, op, l, r, q.i);
    assert At(s, qb.i, sr);
    assert qb.i + |sr| == q.i + |ShowMin(e)|;
    RightStack(e, q);
  }

  /** What the right operand of "l op r" may push over the operator. */
  lemma RightStack(e: Expr, q: State)
    requires e.Bin? && Proper(e) && |q.stack| + MinPending(e) <= Stacks.Capacity
    ensures var qb, wr := BinMid(q, e), RightWrapped(e.op, e.right);
      && |qb.stack| + OperandPending(e.right, wr) <= Stacks.Capacity
      && NoMarkerOnTop(qb.stack) && (!wr ==> Admits(qb.stack, e.right))
  {
    var qb := BinMid(q, e);
    RightAdmits(e.op, e.right);
    assert qb.stack[|qb.stack| - 1] == e.op;
  }

  /** Reading the right operand over the operator leaves what reading the
      whole leaves. */
  lemma RightRead(e: Expr, q: State)
    requires e.Bin?
    ensures ReadOf(BinMid(q, e), e.right, RightWrapped(e.op, e.right)) == Read(q, e)
  {
    RightState(e.op, e.left, e.right, q);
  }

  /** Where the right operand of "l op r" stands. */
  lemma RightText(s: string, op: char, l: Expr, r: Expr, i: nat)
    requires At(s, i, ShowMin(Bin(op, l, r)))
    ensures var sl, sr := Operand(l, LeftWrapped(op, l)), Operand(r, RightWrapped(op, r));
      && At(s, i + |sl| + 3, sr) && |ShowMin(Bin(op, l, r))| == |sl| + 3 + |sr|
  {
    var sl, sr := Operand(l, LeftWrapped(op, l)), Operand(r, RightWrapped(op, r));
    var w := ShowMin(Bin(op, l, r));
    BinText(op, sl, sr);
    AtSub(s, i, w, |sl| + 3, |w|);
  }

  /** Reading the right operand over the operator leaves what reading the
      whole leaves. */
  lemma RightState(op: char, l: Expr, r: Expr, q: State)
    ensures var e := Bin(op, l, r);
      ReadOf(BinMid(q, e), r, RightWrapped(op, r)).stack == Read(q, e).stack
      && ReadOf(BinMid(q, e), r, RightWrapped(op, r)).out == Read(q, e).out
      && ReadOf(BinMid(q, e), r, RightWrapped(op, r)).i == q.i + |Operand(l, LeftWrapped(op, l))| + 3 + |Operand(r, RightWrapped(op, r))|
  {
    var wr := RightWrapped(op, r);
    Associate(q.stack, [op], PendOf(r, wr));
    Associate(q.out, PostfixTokens(l), DoneOf(r, wr));
  }

  /** Where the left operand of "l op r" and the operator stand. */
  lemma LeftText(s: string, op: char, l: Expr, r: Expr, i: nat)
    requires At(s, i, ShowMin(Bin(op, l, r)))
    ensures var sl := Operand(l, LeftWrapped(op, l));
      && At(s, i, sl) && i + |sl| + 2 < |s|
      && s[i + |sl|] == ' ' && s[i + |sl| + 1] == op && s[i + |sl| + 2] == ' '
  {
    var sl, sr := Operand(l, LeftWrapped(op, l)), Operand(r, RightWrapped(op, r));
    var w, L := ShowMin(Bin(op, l, r)), |sl|;
    BinText(op, sl, sr);
    AtSub(s, i, w, 0, L);
    AtChar(s, i, w, L);
    AtChar(s, i, w, L + 1);
    AtChar(s, i, w, L + 2);
  }

  /** What the left operand of "l op r" may push, and what the operator
      writes: the operand's pending entries, all of which go before it. */
  lemma LeftStack(op: char, l: Expr, q: State, qb: State)
    requires IsOperator(op) && Proper(l)
    requires NoMarkerOnTop(q.stack)
    requires q.stack == [] || !GoesFirst(q.stack[|q.stack| - 1], op)
    requires qb.out == q.out + PostfixTokens(l)
    ensures !LeftWrapped(op, l) ==> Admits(q.stack, l)
    ensures var qa := ReadOf(q, l, LeftWrapped(op, l));
      PopWhile(qa.stack, qa.out, op) == (q.stack, qb.out)
  {
    var wl := LeftWrapped(op, l);
    LeftAdmits(q.stack, op, l);
    LeftPendGoesFirst(op, l, wl);
    var qa := ReadOf(q, l, wl);
    PopAll(q.stack, PendOf(l, wl), qa.out, op);
    DoneOfEmitted(l, wl);
    Associate(q.out, DoneOf(l, wl), Emitted(PendOf(l, wl)));
  }

  /** A left operand without parentheses binds at least as tightly as the
      operator, so what does not go before the operator does not go
      before the operand's operator either. */
  lemma LeftAdmits(st: seq<char>, op: char, l: Expr)
    requires Proper(l) && IsOperator(op)
    requires st == [] || !IsAlpha(st[|st| - 1])
    requires st == [] || !GoesFirst(st[|st| - 1], op)
    ensures !LeftWrapped(op, l) ==> Admits(st, l)
  {
    if !LeftWrapped(op, l) && l.Bin? && st != [] {
      var top := st[|st| - 1];
      if top != '(' && Precedence(top) == Precedence(op) {
        assert op == '^';
      }
    }
  }

  /** The pending entries of a left operand without parentheses all go
      before the operator. */
  lemma LeftPendGoesFirst(op: char, l: Expr, wrapped: bool)
    requires Proper(l) && IsOperator(op) && wrapped == LeftWrapped(op, l)
    ensures forall k :: 0 <= k < |PendOf(l, wrapped)| ==> GoesFirst(PendOf(l, wrapped)[k], op)
  {
    if !wrapped && l.Bin? {
      PendGoesFirst(l, op);
    }
  }

  /** A right operand without parentheses binds more tightly than the
      operator, or as tightly under '^': the operator does not go before
      it. */
  lemma RightAdmits(op: char, r: Expr)
    requires Proper(r) && IsOperator(op)
    ensures !RightWrapped(op, r) ==> Admits([op], r)
  {
    if !RightWrapped(op, r) && r.Bin? && Precedence(op) == Precedence(r.op) {
      assert op == '^' && r.op == '^';
    }
  }

  // ---------------------------------------------------------------------
  // The conversion of the whole text
  // ---------------------------------------------------------------------

  /** converter_infixo_para_posfixo on text written with the fewest
      parentheses gives the tree's postfix text: operators are applied by
      precedence, '^' groups to the right and the others to the left. */
  lemma ConvertMinimal(e: Expr)
    requires Proper(e) && MinPending(e) <= Stacks.Capacity
    ensures ToPostfix(ShowMin(e)) == Some(Join(PostfixTokens(e)))
  {
    StartReady(e);
    StartRead(e);
    ReadMin(ShowMin(e), e, Start);
  }

  /** The whole text of `e` can be read from the start. */
  lemma StartReady(e: Expr)
    requires Proper(e) && MinPending(e) <= Stacks.Capacity
    ensures ReadyMin(ShowMin(e), e, Start)
  {
    var s := ShowMin(e);
    assert At(s, 0, s) by { assert s[0..|s|] == s; }
  }

  /** Reading it leaves the pending operators on an otherwise empty
      stack, and writing them completes the tree's postfix sequence. */
  lemma StartRead(e: Expr)
    requires Proper(e)
    ensures Read(Start, e) == State(|ShowMin(e)|, Pend(e), Done(e), false)
    ensures '(' !in Pend(e) && Done(e) + Emitted(Pend(e)) == PostfixTokens(e)
  {
    assert Start.stack + Pend(e) == Pend(e) && Start.out + Done(e) == Done(e);
    PendOperators(e);
    assert '(' !in Pend(e) by {
      assert !IsOperator('(');
    }
    DoneEmitted(e);
  }

  /** Converting text written with the fewest parentheses and evaluating
      the result gives the tree's value, or a math error where it is
      undefined. */
  lemma EvaluateMinimal(m: Libm, e: Expr)
    requires Proper(e) && MinPending(e) <= Stacks.Capacity && Width(e) <= Stacks.Capacity
    ensures ToPostfix(ShowMin(e)).Some?
    ensures Evaluate(m, ToPostfix(ShowMin(e)).value) ==
      if Value(m, e).Some? then Ok(Value(m, e).value) else Fail(MathError)
  {
    ConvertMinimal(e);
    EvaluateShown(m, e);
  }
}
