/** The symbol alphabet both converters and both evaluators share: the six
    binary operators, the five function names, the one-letter markers a
    function leaves on the operator stack, and the precedence table. */
module Symbols {
  import opened CType

  /** ehOperador */
  predicate IsOperator(c: char) {
    c == '+' || c == '-' || c == '*' || c == '/' || c == '%' || c == '^'
  }

  /** ehFuncao */
  predicate IsFunctionName(w: string) {
    w == "raiz" || w == "sen" || w == "cos" || w == "tg" || w == "log"
  }

  /** The markers pushed on the operator stack in place of a function. */
  predicate IsMarker(c: char) {
    c == 'R' || c == 'S' || c == 'C' || c == 'T' || c == 'L'
  }

  /** The marker a function name is pushed as. */
  function Marker(w: string): (c: char)
    requires IsFunctionName(w)
    ensures IsMarker(c)
  {
    if w == "raiz" then 'R'
    else if w == "sen" then 'S'
    else if w == "cos" then 'C'
    else if w == "tg" then 'T'
    else 'L'
  }

  /** The function name a popped marker is written back as. */
  function MarkerName(c: char): (w: string)
    requires IsMarker(c)
    ensures IsFunctionName(w)
  {
    match c
    case 'R' => "raiz"
    case 'S' => "sen"
    case 'C' => "cos"
    case 'T' => "tg"
    case 'L' => "log"
  }

  /** Marker and name are inverse: no function is lost or confused on its
      way through the operator stack. */
  lemma MarkerRoundTrip(w: string, c: char)
    ensures IsFunctionName(w) ==> MarkerName(Marker(w)) == w
    ensures IsMarker(c) ==> Marker(MarkerName(c)) == c
  {
  }

  /** precedencia: 0 for '(' and every other character. */
  function Precedence(c: char): (p: nat)
    ensures p <= 4
    ensures p == 4 <==> IsMarker(c)
    ensures 1 <= p <= 3 <==> IsOperator(c)
  {
    match c
    case '+' | '-' => 1
    case '*' | '/' | '%' => 2
    case '^' => 3
    case 'R' | 'S' | 'C' | 'T' | 'L' => 4
    case _ => 0
  }

  /** The levels of the table: functions bind tighter than every operator,
      `^` tighter than `* / %`, which bind tighter than `+ -`; the
      parenthesis is no operator at all. */
  lemma PrecedenceLevels(op: char, f: char)
    requires IsOperator(op) && IsMarker(f)
    ensures Precedence(op) < Precedence(f)
    ensures Precedence('+') == Precedence('-') < Precedence('*')
    ensures Precedence('*') == Precedence('/') == Precedence('%') < Precedence('^')
    ensures Precedence('(') == 0
  {
  }

  /** adicionar_operador_a_saida, without the blank that follows: the token
      a popped operator-stack entry is written as. */
  function EmitText(c: char): (t: string)
    ensures t != []
    ensures c != ' ' ==> ' ' !in t
    ensures IsMarker(c) ==> IsFunctionName(t) && Marker(t) == c
    ensures !IsMarker(c) ==> t == [c]
  {
    if IsMarker(c) then MarkerName(c) else [c]
  }
}
