/** The infix-to-postfix converter of `expressao.h`
    (`converter_infixo_para_posfixo`): a character scanner whose
    "expecting an operand" flag turns a leading '-' into part of a number,
    driving the shunting-yard algorithm over the operator stack. The
    functions below follow the converter step by step; `Run` is the state of
    its main loop, from which the rest of the conversion proceeds. */
module Infix {
  import opened Wrappers
  import opened CType
  import opened Symbols
  import opened Text
  import opened Postfix
  import Stacks

  /** A number literal fills at most 63 characters of `num_buf[64]`. */
  const NumberLimit: nat := 63

  /** A word fills at most 9 characters of `func_buf[10]`. */
  const WordLimit: nat := 9

  /** Where the reading of a number stops, from `i` with `j` characters
      already in the buffer: digits and points are taken while there is
      room. */
  function NumberEnd(s: string, i: nat, j: nat): (e: nat)
    requires i <= |s| && j <= NumberLimit
    ensures i <= e <= |s| && e - i <= NumberLimit - j
    ensures forall k :: i <= k < e ==> IsNumeral(s[k])
    ensures e == |s| || !IsNumeral(s[e]) || e - i == NumberLimit - j
    ensures j < NumberLimit && i < |s| && IsNumeral(s[i]) ==> i < e
    decreases |s| - i
  {
    if j < NumberLimit && i < |s| && IsNumeral(s[i]) then NumberEnd(s, i + 1, j + 1) else i
  }

  /** Where the reading of a word stops: letters are taken while there is
      room. */
  function WordEnd(s: string, i: nat, j: nat): (e: nat)
    requires i <= |s| && j <= WordLimit
    ensures i <= e <= |s| && e - i <= WordLimit - j
    ensures forall k :: i <= k < e ==> IsAlpha(s[k])
    ensures e == |s| || !IsAlpha(s[e]) || e - i == WordLimit - j
    ensures j < WordLimit && i < |s| && IsAlpha(s[i]) ==> i < e
    decreases |s| - i
  {
    if j < WordLimit && i < |s| && IsAlpha(s[i]) then WordEnd(s, i + 1, j + 1) else i
  }

  /** empilhaChar as the converter uses it: its refusal on a full stack is
      not checked, so the entry is silently dropped. */
  function PushChar(st: seq<char>, c: char): seq<char> {
    if |st| >= Stacks.Capacity then st else st + [c]
  }

  /** What an operator-stack entry may be. */
  predicate IsStackSymbol(c: char) {
    c == '(' || IsOperator(c) || IsMarker(c)
  }

  /** A token the evaluator can read back: it has no blank, and it is a
      number, an operator or a function name. */
  predicate IsReadable(t: string) {
    IsWord(t) && KindOf(t) != Invalid
  }

  /** The tokens the popped entries write, the top first. */
  function Emitted(popped: seq<char>): (ts: seq<string>)
    ensures |ts| == |popped|
  {
    if popped == [] then [] else [EmitText(popped[|popped| - 1])] + Emitted(popped[..|popped| - 1])
  }

  /** The loop of the ')' branch: pop and write every entry above the
      nearest '('. */
  function PopToOpen(st: seq<char>, out: seq<string>): (seq<char>, seq<string>)
    decreases |st|
  {
    if st == [] || st[|st| - 1] == '(' then (st, out)
    else
      var r := PopToOpen(st[..|st| - 1], out + [EmitText(st[|st| - 1])]);
      r
  }

  /** Writing the top entry, then the entries from `n` up to it. */
  lemma EmittedPop(st: seq<char>, n: nat, out: seq<string>)
    requires n < |st|
    ensures out + [EmitText(st[|st| - 1])] + Emitted(st[n..|st| - 1]) == out + Emitted(st[n..])
  {
    var p := st[n..];
    assert p[..|p| - 1] == st[n..|st| - 1];
    assert p[|p| - 1] == st[|st| - 1];
  }

  /** Whether the entry `top` is written out before the incoming operator
      `op` is pushed: it is no '(' and binds tighter, or as tight and `op`
      is not the right-associative '^'. */
  predicate GoesFirst(top: char, op: char) {
    top != '(' && (Precedence(top) > Precedence(op) || (Precedence(top) == Precedence(op) && op != '^'))
  }

  /** The loop of the operator branch: pop and write entries while they go
      first. */
  function PopWhile(st: seq<char>, out: seq<string>, op: char): (seq<char>, seq<string>)
    decreases |st|
  {
    if st == [] || !GoesFirst(st[|st| - 1], op) then (st, out)
    else
      var r := PopWhile(st[..|st| - 1], out + [EmitText(st[|st| - 1])], op);
      r
  }
  /** What `PopToOpen` leaves: a prefix of the stack, ending at a '(' or
      empty, with no '(' among the entries it removed, which it writes
      top first. */
  lemma {:induction false} PopToOpenShape(st: seq<char>, out: seq<string>)
    ensures var r := PopToOpen(st, out);
      && r.0 <= st
      && (r.0 == [] || r.0[|r.0| - 1] == '(')
      && (forall k :: |r.0| <= k < |st| ==> st[k] != '(')
      && r.1 == out + Emitted(st[|r.0|..])
    decreases |st|
  {
    if st == [] || st[|st| - 1] == '(' {
    } else {
      PopToOpenShape(st[..|st| - 1], out + [EmitText(st[|st| - 1])]);
      var r := PopToOpen(st[..|st| - 1], out + [EmitText(st[|st| - 1])]);
      EmittedPop(st, |r.0|, out);
      assert st[..|st| - 1][..|r.0|] == st[..|r.0|];
    }
  }

  /** What `PopWhile` leaves: a prefix of the stack whose top, if any,
      does not go first, every removed entry going first, and the removed
      entries written top first. */
  lemma {:induction false} PopWhileShape(st: seq<char>, out: seq<string>, op: char)
    ensures var r := PopWhile(st, out, op);
      && r.0 <= st
      && (r.0 == [] || !GoesFirst(r.0[|r.0| - 1], op))
      && (forall k :: |r.0| <= k < |st| ==> GoesFirst(st[k], op))
      && r.1 == out + Emitted(st[|r.0|..])
    decreases |st|
  {
    if st == [] || !GoesFirst(st[|st| - 1], op) {
    } else {
      PopWhileShape(st[..|st| - 1], out + [EmitText(st[|st| - 1])], op);
      var r := PopWhile(st[..|st| - 1], out + [EmitText(st[|st| - 1])], op);
      EmittedPop(st, |r.0|, out);
      assert st[..|st| - 1][..|r.0|] == st[..|r.0|];
    }
  }


  /** The result of a conversion and the operator stack it leaves. */
  datatype Conv = Conv(out: Option<seq<string>>, stack: seq<char>)

  /** One round of the ')' loop: the top entry, not '(', is written. */
  lemma PopToOpenStep(st: seq<char>, out: seq<string>)
    requires st != [] && st[|st| - 1] != '('
    ensures PopToOpen(st, out) == PopToOpen(st[..|st| - 1], out + [EmitText(st[|st| - 1])])
  {
  }

  /** The ')' loop stops at '(' or on an empty stack. */
  lemma PopToOpenDone(st: seq<char>, out: seq<string>)
    requires st == [] || st[|st| - 1] == '('
    ensures PopToOpen(st, out) == (st, out)
  {
  }

  /** One round of the operator loop: the top entry goes first and is
      written. */
  lemma PopWhileStep(st: seq<char>, out: seq<string>, op: char)
    requires st != [] && GoesFirst(st[|st| - 1], op)
    ensures PopWhile(st, out, op) == PopWhile(st[..|st| - 1], out + [EmitText(st[|st| - 1])], op)
  {
  }

  /** The operator loop stops at an entry that does not go first. */
  lemma PopWhileDone(st: seq<char>, out: seq<string>, op: char)
    requires st == [] || !GoesFirst(st[|st| - 1], op)
    ensures PopWhile(st, out, op) == (st, out)
  {
  }

  /** The final loop: pop and write every entry; a '(' left over is an
      unbalanced parenthesis. */
  function Flush(st: seq<char>, out: seq<string>): (r: Conv)
    ensures r.out.Some? <==> '(' !in st
    ensures r.out.Some? ==> r.stack == [] && r.out.value == out + Emitted(st)
    decreases |st|
  {
    if st == [] then Conv(Some(out), [])
    else if st[|st| - 1] == '(' then Conv(None, st[..|st| - 1])
    else
      var r := Flush(st[..|st| - 1], out + [EmitText(st[|st| - 1])]);
      assert st == st[..|st| - 1] + [st[|st| - 1]];
      r
  }

  /** The variables of the main loop: the position `i` in the input, the
      operator stack, the tokens written so far and the "expecting an
      operand" flag. */
  datatype State = State(i: nat, stack: seq<char>, out: seq<string>, expecting: bool)

  /** One pass of the main loop: the next state, or the return of NULL with
      the stack as it was left. */
  datatype Step = Next(next: State) | Stop(stack: seq<char>)

  /** One pass of the main loop at a character of the input; the branches
      are tested in the converter's order. */
  function StepAt(s: string, q: State): (r: Step)
    requires q.i < |s|
    ensures r.Next? ==> q.i < r.next.i <= |s|
  {
    var i, st, out := q.i, q.stack, q.out;
    var c := s[i];
    if IsSpace(c) then Next(q.(i := i + 1))
    else if IsDigit(c) || (c == '.' && i + 1 < |s| && IsDigit(s[i + 1])) then
      var e := NumberEnd(s, i, 0);
      Next(State(e, st, out + [s[i..e]], false))
    else if q.expecting && c == '-' then
      var e := NumberEnd(s, i + 1, 1);
      Next(State(e, st, out + [s[i..e]], false))
    else if IsAlpha(c) then
      var e := WordEnd(s, i, 0);
      if IsFunctionName(s[i..e]) then Next(q.(i := e, stack := PushChar(st, Marker(s[i..e]))))
      else Stop(st)
    else if c == '(' then Next(State(i + 1, PushChar(st, '('), out, true))
    else if c == ')' then Close(q)
    else if IsOperator(c) then Next(Incoming(q, c))
    else Stop(st)
  }

  /** A digit, or a '.' before a digit, starts a number. */
  predicate StartsNumber(s: string, i: nat)
    requires i < |s|
  {
    IsDigit(s[i]) || (s[i] == '.' && i + 1 < |s| && IsDigit(s[i + 1]))
  }

  /** The branches of one pass, each under the tests that lead to it. */
  lemma StepSpace(s: string, q: State)
    requires q.i < |s| && IsSpace(s[q.i])
    ensures StepAt(s, q) == Next(q.(i := q.i + 1))
  {
  }

  lemma StepNumber(s: string, q: State)
    requires q.i < |s| && !IsSpace(s[q.i]) && StartsNumber(s, q.i)
    ensures var e := NumberEnd(s, q.i, 0);
      StepAt(s, q) == Next(State(e, q.stack, q.out + [s[q.i..e]], false))
  {
  }

  lemma StepNegative(s: string, q: State)
    requires q.i < |s| && !IsSpace(s[q.i]) && !StartsNumber(s, q.i)
    requires q.expecting && s[q.i] == '-'
    ensures var e := NumberEnd(s, q.i + 1, 1);
      StepAt(s, q) == Next(State(e, q.stack, q.out + [s[q.i..e]], false))
  {
  }

  lemma StepWord(s: string, q: State)
    requires q.i < |s| && !IsSpace(s[q.i]) && !StartsNumber(s, q.i)
    requires !(q.expecting && s[q.i] == '-') && IsAlpha(s[q.i])
    ensures var e := WordEnd(s, q.i, 0);
      StepAt(s, q) == if IsFunctionName(s[q.i..e])
        then Next(q.(i := e, stack := PushChar(q.stack, Marker(s[q.i..e]))))
        else Stop(q.stack)
  {
  }

  lemma StepOther(s: string, q: State)
    requires q.i < |s| && !IsSpace(s[q.i]) && !StartsNumber(s, q.i)
    requires !(q.expecting && s[q.i] == '-') && !IsAlpha(s[q.i])
    ensures StepAt(s, q) ==
      if s[q.i] == '(' then Next(State(q.i + 1, PushChar(q.stack, '('), q.out, true))
      else if s[q.i] == ')' then Close(q)
      else if IsOperator(s[q.i]) then Next(Incoming(q, s[q.i]))
      else Stop(q.stack)
  {
  }

  /** The ')' branch: write the entries above the nearest '(' and drop it,
      then write a function marker found under it; NULL without a '('. */
  function Close(q: State): Step {
    var popped := PopToOpen(q.stack, q.out);
    var st1, out1 := popped.0, popped.1;
    if st1 == [] then Stop(st1)
    else
      var st2 := st1[..|st1| - 1];
      if st2 != [] && IsAlpha(st2[|st2| - 1]) then
        Next(State(q.i + 1, st2[..|st2| - 1], out1 + [EmitText(st2[|st2| - 1])], false))
      else Next(State(q.i + 1, st2, out1, false))
  }

  /** The ')' branch once the entries above the nearest '(' are written:
      `st1` is what is left of the stack. */
  lemma CloseFrom(q: State, st1: seq<char>, out1: seq<string>)
    requires PopToOpen(q.stack, q.out) == (st1, out1)
    ensures st1 == [] ==> Close(q) == Stop([])
    ensures |st1| >= 2 && IsAlpha(st1[|st1| - 2]) ==>
      Close(q) == Next(State(q.i + 1, st1[..|st1| - 2], out1 + [EmitText(st1[|st1| - 2])], false))
    ensures st1 != [] && !(|st1| >= 2 && IsAlpha(st1[|st1| - 2])) ==>
      Close(q) == Next(State(q.i + 1, st1[..|st1| - 1], out1, false))
  {
    if |st1| >= 2 {
      assert st1[..|st1| - 1][..|st1| - 2] == st1[..|st1| - 2];
    }
  }

  /** The operator branch: write the entries that go first, then push the
      operator. */
  function Incoming(q: State, op: char): State {
    var popped := PopWhile(q.stack, q.out, op);
    State(q.i + 1, PushChar(popped.0, op), popped.1, true)
  }

  /** The main loop from state `q` to the end of the input, then the final
      emptying of the stack. */
  function Run(s: string, q: State): Conv
    requires q.i <= |s|
    decreases |s| - q.i, 1
  {
    if q.i == |s| then Flush(q.stack, q.out) else Proceed(s, q)
  }

  /** One pass of the main loop at a position inside the input, then the
      rest of the run. */
  function Proceed(s: string, q: State): Conv
    requires q.i < |s|
    decreases |s| - q.i, 0
  {
    match StepAt(s, q)
    case Stop(st) => Conv(None, st)
    case Next(q') => Run(s, q')
  }

  /** The start of the conversion: empty operator stack, no output, an
      operand expected. */
  const Start: State := State(0, [], [], true)

  /** The whole conversion. */
  function Convert(s: string): Conv {
    Run(s, Start)
  }

  /** converter_infixo_para_posfixo: the tokens separated by single blanks,
      or `None` for its NULL. */
  function ToPostfix(s: string): Option<string> {
    match Convert(s).out
    case None => None
    case Some(ts) => Some(Join(ts))
  }


  // ---------------------------------------------------------------------
  // The output is made of tokens the evaluator reads back
  // ---------------------------------------------------------------------

  /** A popped entry other than '(' is written as an operator or a function
      name. */
  lemma EmitReadable(c: char)
    requires c != '(' && IsStackSymbol(c)
    ensures IsReadable(EmitText(c))
  {
  }

  lemma {:induction false} EmittedReadable(popped: seq<char>)
    requires forall c <- popped :: c != '(' && IsStackSymbol(c)
    ensures forall t <- Emitted(popped) :: IsReadable(t)
    decreases |popped|
  {
    if popped != [] {
      assert popped[|popped| - 1] in popped;
      var init := popped[..|popped| - 1];
      forall c | c in init
        ensures c != '(' && IsStackSymbol(c)
      {
        var k :| 0 <= k < |init| && init[k] == c;
        assert popped[k] == c && c in popped;
      }
      EmitReadable(popped[|popped| - 1]);
      EmittedReadable(init);
    }
  }

  /** A number token read by the scanner: a digit or a point first, or the
      '-' read while an operand is expected. */
  lemma NumberReadable(s: string, i: nat, e: nat)
    requires i < e <= |s|
    requires IsDigit(s[i]) || s[i] == '.' || s[i] == '-'
    requires forall k :: i < k < e ==> IsNumeral(s[k])
    ensures IsReadable(s[i..e])
  {
    var t := s[i..e];
    assert t[0] == s[i];
    assert forall k :: 0 <= k < |t| ==> t[k] == s[i + k];
  }

  /** What the loop keeps for readability: stack entries are symbols and
      the tokens written are readable. */
  predicate ReadableState(q: State) {
    (forall c <- q.stack :: IsStackSymbol(c)) && (forall t <- q.out :: IsReadable(t))
  }

  lemma CloseReadable(st: seq<char>, out: seq<string>)
    requires forall c <- st :: IsStackSymbol(c)
    ensures var st1 := PopToOpen(st, out).0;
      |st1| <= |st| && (forall c <- st1 :: IsStackSymbol(c)) && (forall t <- Emitted(st[|st1|..]) :: IsReadable(t))
  {
    PopToOpenShape(st, out);
    var st1 := PopToOpen(st, out).0;
    assert st == st1 + st[|st1|..];
    EmittedReadable(st[|st1|..]);
  }

  lemma OperatorReadable(st: seq<char>, out: seq<string>, op: char)
    requires forall c <- st :: IsStackSymbol(c)
    ensures var st1 := PopWhile(st, out, op).0;
      |st1| <= |st| && (forall c <- st1 :: IsStackSymbol(c)) && (forall t <- Emitted(st[|st1|..]) :: IsReadable(t))
  {
    PopWhileShape(st, out, op);
    var st1 := PopWhile(st, out, op).0;
    assert st == st1 + st[|st1|..];
    EmittedReadable(st[|st1|..]);
  }

  lemma CloseStepReadable(q: State)
    requires ReadableState(q)
    ensures Close(q).Next? ==> ReadableState(Close(q).next)
  {
    CloseReadable(q.stack, q.out);
    PopToOpenShape(q.stack, q.out);
    var st1 := PopToOpen(q.stack, q.out).0;
    if st1 != [] {
      var st2 := st1[..|st1| - 1];
      assert forall c <- st2 :: c in st1;
      if st2 != [] && IsAlpha(st2[|st2| - 1]) {
        assert st2[|st2| - 1] in st1;
        assert forall c <- st2[..|st2| - 1] :: c in st1;
        EmitReadable(st2[|st2| - 1]);
      }
    }
  }

  lemma StepReadable(s: string, q: State)
    requires q.i < |s| && ReadableState(q)
    ensures StepAt(s, q).Next? ==> ReadableState(StepAt(s, q).next)
  {
    var i := q.i;
    var c := s[i];
    if IsSpace(c) {
    } else if IsDigit(c) || (c == '.' && i + 1 < |s| && IsDigit(s[i + 1])) {
      NumberReadable(s, i, NumberEnd(s, i, 0));
    } else if q.expecting && c == '-' {
      NumberReadable(s, i, NumberEnd(s, i + 1, 1));
    } else if IsAlpha(c) {
    } else if c == '(' {
    } else if c == ')' {
      CloseStepReadable(q);
    } else if IsOperator(c) {
      OperatorReadable(q.stack, q.out, c);
      PopWhileShape(q.stack, q.out, c);
    }
  }

  lemma {:induction false} RunReadable(s: string, q: State)
    requires q.i <= |s| && ReadableState(q)
    ensures Run(s, q).out.Some? ==> forall t <- Run(s, q).out.value :: IsReadable(t)
    decreases |s| - q.i
  {
    if q.i == |s| {
      if '(' !in q.stack {
        EmittedReadable(q.stack);
      }
    } else {
      StepReadable(s, q);
      if StepAt(s, q).Next? {
        RunReadable(s, StepAt(s, q).next);
      }
    }
  }

  /** Every token the converter writes is one the evaluator and the
      rebuilder read back as a number, an operator or a function name, and
      the blanks between them give back exactly those tokens. */
  lemma ConvertReadable(s: string)
    ensures Convert(s).out.Some? ==>
      var ts := Convert(s).out.value;
      && (forall t <- ts :: IsWord(t) && KindOf(t) != Invalid)
      && ToPostfix(s) == Some(Join(ts))
      && Tokens(Join(ts)) == ts
  {
    RunReadable(s, Start);
    if Convert(s).out.Some? {
      TokensJoin(Convert(s).out.value);
    }
  }

  // ---------------------------------------------------------------------
  // Only balanced parentheses are accepted
  // ---------------------------------------------------------------------

  /** Parentheses opened minus parentheses closed. */
  function Depth(s: string): int {
    if s == [] then 0
    else Depth(s[..|s| - 1]) + (if s[|s| - 1] == '(' then 1 else if s[|s| - 1] == ')' then -1 else 0)
  }

  /** No prefix closes more parentheses than it opens, and all are closed. */
  predicate Balanced(s: string) {
    Depth(s) == 0 && forall k :: 0 <= k <= |s| ==> Depth(s[..k]) >= 0
  }

  lemma DepthStep(s: string, k: nat)
    requires k < |s|
    ensures Depth(s[..k + 1]) == Depth(s[..k]) + (if s[k] == '(' then 1 else if s[k] == ')' then -1 else 0)
  {
    assert s[..k + 1][..k] == s[..k];
  }

  /** Characters other than parentheses leave the depth alone. */
  lemma {:induction false} DepthFlat(s: string, i: nat, e: nat)
    requires i <= e <= |s|
    requires forall k :: i <= k < e ==> s[k] != '(' && s[k] != ')'
    ensures forall k :: i <= k <= e ==> Depth(s[..k]) == Depth(s[..i])
    decreases e - i
  {
    if i < e {
      DepthFlat(s, i, e - 1);
      DepthStep(s, e - 1);
    }
  }

  /** The loop's bookkeeping for parentheses: each '(' read and not yet
      closed is on the stack, no prefix read went below zero, and the stack
      holds no more entries than characters read. */
  predicate Tracked(s: string, q: State) {
    && q.i <= |s|
    && |q.stack| <= q.i
    && Opens(q.stack) == Depth(s[..q.i])
    && NeverBelow(s, q.i)
  }

  /** The number of '(' on a stack. */
  function Opens(st: seq<char>): nat {
    if st == [] then 0 else Opens(st[..|st| - 1]) + (if st[|st| - 1] == '(' then 1 else 0)
  }

  /** The count of '(' after one push. */
  lemma CountSnoc(st: seq<char>, c: char)
    ensures Opens(st + [c]) == Opens(st) + (if c == '(' then 1 else 0)
  {
    assert (st + [c])[..|st|] == st;
  }

  /** Entries popped above the kept prefix hold no '(': the prefix has all
      the '(' of the stack. */
  lemma {:induction false} KeepsOpens(st: seq<char>, st1: seq<char>)
    requires st1 <= st
    requires forall k :: |st1| <= k < |st| ==> st[k] != '('
    ensures Opens(st1) == Opens(st)
    decreases |st|
  {
    if |st1| < |st| {
      assert st1 <= st[..|st| - 1];
      KeepsOpens(st[..|st| - 1], st1);
    } else {
      assert st1 == st;
    }
  }

  /** No prefix of the first `n` characters closes more than it opens. */
  predicate NeverBelow(s: string, n: nat)
    requires n <= |s|
  {
    forall k :: 0 <= k <= n ==> Depth(s[..k]) >= 0
  }

  lemma NeverBelowStep(s: string, n: nat)
    requires n < |s| && NeverBelow(s, n) && Depth(s[..n + 1]) >= 0
    ensures NeverBelow(s, n + 1)
  {
  }

  /** After a ')', the stack holds one '(' fewer than before. */
  lemma CloseOpens(q: State)
    ensures Close(q).Next? ==> Opens(Close(q).next.stack) == Opens(q.stack) - 1
    ensures Close(q).Next? ==> |Close(q).next.stack| < |q.stack|
  {
    var r := PopToOpen(q.stack, q.out);
    PopToOpenShape(q.stack, q.out);
    CloseFrom(q, r.0, r.1);
    if r.0 != [] {
      OpensBelowOpen(q.stack, r.0);
    }
  }

  /** Dropping the nearest '(' and the entry under it when it is a marker
      leaves one '(' fewer. */
  lemma OpensBelowOpen(st: seq<char>, st1: seq<char>)
    requires st1 <= st && st1 != [] && st1[|st1| - 1] == '('
    requires forall k :: |st1| <= k < |st| ==> st[k] != '('
    ensures Opens(st1[..|st1| - 1]) == Opens(st) - 1
    ensures |st1| >= 2 && IsAlpha(st1[|st1| - 2]) ==> Opens(st1[..|st1| - 2]) == Opens(st) - 1
  {
    KeepsOpens(st, st1);
    var st2 := st1[..|st1| - 1];
    assert st1 == st2 + ['('];
    CountSnoc(st2, '(');
    if |st1| >= 2 && IsAlpha(st1[|st1| - 2]) {
      assert st2 == st1[..|st1| - 2] + [st1[|st1| - 2]];
      CountSnoc(st1[..|st1| - 2], st1[|st1| - 2]);
    }
  }

  lemma CloseTracked(s: string, q: State)
    requires q.i < |s| <= Stacks.Capacity && s[q.i] == ')' && Tracked(s, q)
    ensures Close(q).Next? ==> Tracked(s, Close(q).next)
  {
    DepthStep(s, q.i);
    CloseOpens(q);
    if Close(q).Next? {
      NeverBelowStep(s, q.i);
    }
  }

  /** The operator loop pops no '(': the count of '(' is kept. */
  lemma PopWhileKeepsOpens(st: seq<char>, out: seq<string>, op: char)
    ensures var st1 := PopWhile(st, out, op).0;
      |st1| <= |st| && Opens(st1) == Opens(st)
  {
    PopWhileShape(st, out, op);
    KeepsOpens(st, PopWhile(st, out, op).0);
  }

  lemma OperatorTracked(s: string, q: State)
    requires q.i < |s| <= Stacks.Capacity && IsOperator(s[q.i]) && Tracked(s, q)
    ensures Tracked(s, Incoming(q, s[q.i]))
  {
    var c := s[q.i];
    var popped := PopWhile(q.stack, q.out, c);
    PopWhileKeepsOpens(q.stack, q.out, c);
    CountSnoc(popped.0, c);
    var r := State(q.i + 1, popped.0 + [c], popped.1, true);
    assert Incoming(q, c) == r;
    FlatTracked(s, q, r);
  }

  /** Reading characters other than parentheses, with at most one push. */
  lemma FlatTracked(s: string, q: State, r: State)
    requires q.i < r.i <= |s| && Tracked(s, q)
    requires forall k :: q.i <= k < r.i ==> s[k] != '(' && s[k] != ')'
    requires Opens(r.stack) == Opens(q.stack)
    requires |r.stack| <= |q.stack| + 1
    ensures Tracked(s, r)
  {
    DepthFlat(s, q.i, r.i);
  }

  /** A blank, a number or a function name: no parenthesis is read. */
  lemma FlatStepTracked(s: string, q: State)
    requires q.i < |s| <= Stacks.Capacity && Tracked(s, q)
    requires IsSpace(s[q.i]) || IsDigit(s[q.i]) || s[q.i] == '.' || (q.expecting && s[q.i] == '-') || IsAlpha(s[q.i])
    ensures StepAt(s, q).Next? ==> Tracked(s, StepAt(s, q).next)
  {
    var i, st := q.i, q.stack;
    var c := s[i];
    if StepAt(s, q).Next? {
      var r := StepAt(s, q).next;
      if !IsSpace(c) && !IsDigit(c) && !(c == '.' && i + 1 < |s| && IsDigit(s[i + 1])) && !(q.expecting && c == '-') {
        var e := WordEnd(s, i, 0);
        assert r.stack == st + [Marker(s[i..e])];
        CountSnoc(st, Marker(s[i..e]));
      }
      FlatTracked(s, q, r);
    }
  }

  lemma OpenStepTracked(s: string, q: State)
    requires q.i < |s| <= Stacks.Capacity && Tracked(s, q) && s[q.i] == '('
    ensures StepAt(s, q).Next? ==> Tracked(s, StepAt(s, q).next)
  {
    DepthStep(s, q.i);
    NeverBelowStep(s, q.i);
    CountSnoc(q.stack, '(');
  }

  lemma StepTracked(s: string, q: State)
    requires q.i < |s| <= Stacks.Capacity && Tracked(s, q)
    ensures StepAt(s, q).Next? ==> Tracked(s, StepAt(s, q).next)
  {
    var c := s[q.i];
    if IsSpace(c) || IsDigit(c) || c == '.' || (q.expecting && c == '-') || IsAlpha(c) {
      FlatStepTracked(s, q);
    } else if c == '(' {
      OpenStepTracked(s, q);
    } else if c == ')' {
      assert StepAt(s, q) == Close(q);
      CloseTracked(s, q);
    } else if IsOperator(c) {
      assert StepAt(s, q) == Next(Incoming(q, c));
      OperatorTracked(s, q);
    }
  }

  lemma {:induction false} RunBalanced(s: string, q: State)
    requires |s| <= Stacks.Capacity && Tracked(s, q)
    ensures Run(s, q).out.Some? ==> Balanced(s)
    decreases |s| - q.i
  {
    if q.i == |s| {
      assert s[..q.i] == s;
      if '(' !in q.stack {
        KeepsOpens(q.stack, []);
      }
    } else {
      StepTracked(s, q);
      assert Run(s, q) == Proceed(s, q);
      if StepAt(s, q).Next? {
        RunBalanced(s, StepAt(s, q).next);
      }
    }
  }

  /** Within the operator stack's capacity, the converter accepts only
      balanced parentheses: a ')' without its '(' or a '(' left open gives
      `None`. */
  lemma ConvertBalanced(s: string)
    requires |s| <= Stacks.Capacity
    ensures Convert(s).out.Some? ==> Balanced(s)
  {
    RunBalanced(s, Start);
  }

  // ---------------------------------------------------------------------
  // Single passes of the main loop
  // ---------------------------------------------------------------------

  /** The text `w` stands in `s` at position `i`. */
  predicate At(s: string, i: nat, w: string) {
    i + |w| <= |s| && s[i..i + |w|] == w
  }

  lemma AtSplit(s: string, i: nat, a: string, b: string)
    requires At(s, i, a + b)
    ensures At(s, i, a) && At(s, i + |a|, b)
  {
    assert s[i..i + |a|] == s[i..i + |a + b|][..|a|];
    assert s[i + |a|..i + |a| + |b|] == s[i..i + |a + b|][|a|..];
  }

  lemma AtChar(s: string, i: nat, w: string, k: nat)
    requires At(s, i, w) && k < |w|
    ensures s[i + k] == w[k]
  {
    assert s[i..i + |w|][k] == s[i + k];
  }

  /** A literal the scanner reads whole as one number token: at most 63
      characters, a digit, a point and a digit, or a '-' with more after it
      first, and digits or points after the first. */
  predicate IsLiteral(t: string) {
    && 0 < |t| <= NumberLimit
    && (forall k :: 1 <= k < |t| ==> IsNumeral(t[k]))
    && (IsDigit(t[0]) || (|t| > 1 && ((t[0] == '.' && IsDigit(t[1])) || t[0] == '-')))
  }

  lemma {:induction false} NumberEndAt(s: string, i: nat, j: nat, e: nat)
    requires i <= e <= |s| && j <= NumberLimit && e - i <= NumberLimit - j
    requires forall k :: i <= k < e ==> IsNumeral(s[k])
    requires e == |s| || !IsNumeral(s[e]) || e - i == NumberLimit - j
    ensures NumberEnd(s, i, j) == e
    decreases e - i
  {
    if i < e {
      NumberEndAt(s, i + 1, j + 1, e);
    }
  }

  lemma {:induction false} WordEndFrom(s: string, i: nat, j: nat, e: nat)
    requires i <= e <= |s| && j <= WordLimit && e - i <= WordLimit - j
    requires forall k :: i <= k < e ==> IsAlpha(s[k])
    requires e == |s| || !IsAlpha(s[e])
    ensures WordEnd(s, i, j) == e
    decreases e - i
  {
    if i < e {
      WordEndFrom(s, i + 1, j + 1, e);
    }
  }

  lemma RunSpace(s: string, q: State)
    requires q.i < |s| && IsSpace(s[q.i])
    ensures Run(s, q) == Run(s, q.(i := q.i + 1))
  {
  }

  /** A literal is written out as one token and an operand is no longer
      expected. */
  lemma RunNumber(s: string, q: State, t: string)
    requires At(s, q.i, t) && IsLiteral(t)
    requires t[0] == '-' ==> q.expecting
    requires q.i + |t| == |s| || !IsNumeral(s[q.i + |t|])
    ensures Run(s, q) == Run(s, State(q.i + |t|, q.stack, q.out + [t], false))
  {
    var i, e := q.i, q.i + |t|;
    forall k | 0 <= k < |t| ensures s[i + k] == t[k] {
      AtChar(s, i, t, k);
    }
    forall k | i < k < e ensures IsNumeral(s[k]) {
      assert s[i + (k - i)] == t[k - i];
    }
    if t[0] == '-' {
      NumberEndAt(s, i + 1, 1, e);
    } else {
      if t[0] == '.' {
        assert s[i + 1] == t[1];
      }
      NumberEndAt(s, i, 0, e);
    }
    assert s[i..e] == t;
  }

  /** A function name is all letters and short enough to be read whole. */
  lemma FunctionNameLetters(w: string)
    requires IsFunctionName(w)
    ensures 0 < |w| <= WordLimit && forall k :: 0 <= k < |w| ==> IsAlpha(w[k])
  {
  }

  /** The scanner reads a function name standing at `i` whole. */
  lemma ScanWord(s: string, i: nat, w: string)
    requires At(s, i, w) && IsFunctionName(w)
    requires i + |w| == |s| || !IsAlpha(s[i + |w|])
    ensures IsAlpha(s[i]) && WordEnd(s, i, 0) == i + |w| && s[i..i + |w|] == w
  {
    FunctionNameLetters(w);
    forall k | i <= k < i + |w| ensures IsAlpha(s[k]) {
      AtChar(s, i, w, k - i);
    }
    WordEndFrom(s, i, 0, i + |w|);
  }

  /** A function name pushes its marker. */
  lemma RunWord(s: string, q: State, w: string)
    requires At(s, q.i, w) && IsFunctionName(w) && |q.stack| < Stacks.Capacity
    requires q.i + |w| == |s| || !IsAlpha(s[q.i + |w|])
    ensures Run(s, q) == Run(s, q.(i := q.i + |w|, stack := q.stack + [Marker(w)]))
  {
    var i, e := q.i, q.i + |w|;
    ScanWord(s, i, w);
    var c := s[i];
    assert !IsSpace(c) && !IsDigit(c) && c != '.' && c != '-';
    assert StepAt(s, q) == Next(q.(i := e, stack := PushChar(q.stack, Marker(w))));
  }

  lemma RunOpen(s: string, q: State)
    requires q.i < |s| && s[q.i] == '(' && |q.stack| < Stacks.Capacity
    ensures Run(s, q) == Run(s, State(q.i + 1, q.stack + ['('], q.out, true))
  {
  }

  lemma RunClose(s: string, q: State)
    requires q.i < |s| && s[q.i] == ')' && Close(q).Next?
    ensures Run(s, q) == Run(s, Close(q).next)
  {
  }

  /** An operator not read as the sign of a number goes through the
      operator branch. */
  lemma RunOperator(s: string, q: State)
    requires q.i < |s| && IsOperator(s[q.i]) && !(q.expecting && s[q.i] == '-')
    ensures Run(s, q) == Run(s, Incoming(q, s[q.i]))
  {
    var c := s[q.i];
    assert !IsSpace(c) && !IsDigit(c) && c != '.' && !IsAlpha(c) && c != '(' && c != ')';
    assert StepAt(s, q) == Next(Incoming(q, c));
  }
}
