/** The fixed-capacity array stacks of the calculator: the operator stack
    (`char`), the value stack (`float`) and the fragment stack (`char *`).
    `top` is the index of the top entry and -1 when the stack is empty, as in
    the C structure. */
module Stacks {
  import opened Wrappers

  /** MAX_PILHA_SIZE */
  const Capacity: nat := 256

  class Stack<T(0)> {
    const data: array<T>
    var top: int

    ghost predicate Valid()
      reads this
    {
      data.Length == Capacity && -1 <= top < Capacity
    }

    /** The entries from the bottom up. */
    ghost function Contents(): (s: seq<T>)
      reads this, data
      requires Valid()
      ensures |s| <= Capacity
    {
      data[..top + 1]
    }

    /** A stack with no entries (`topo = -1` at creation). */
    constructor ()
      ensures Valid() && fresh(data) && Contents() == []
    {
      data := new T[Capacity];
      top := -1;
    }

    /** pilha*Vazia */
    predicate IsEmpty()
      reads this, data
      requires Valid()
      ensures IsEmpty() <==> Contents() == []
    {
      top == -1
    }

    /** The top entry, `None` for the sentinel an empty stack answers with
        (topoPilhaChar). */
    function Peek(): (r: Option<T>)
      reads this, data
      requires Valid()
      ensures Contents() == [] <==> r.None?
      ensures r.Some? ==> r.value == Contents()[|Contents()| - 1]
    {
      if top == -1 then None else Some(data[top])
    }

    /** limparPilhaChar, limparPilhaFloat: forget every entry. */
    method Clear()
      requires Valid()
      modifies this
      ensures Valid() && Contents() == []
    {
      top := -1;
    }

    /** empilha*: refused, leaving the stack as it was, when it already holds
        `Capacity` entries (`topo >= MAX_PILHA_SIZE - 1`). */
    method Push(x: T) returns (ok: bool)
      requires Valid()
      modifies this, data
      ensures Valid()
      ensures ok <==> |old(Contents())| < Capacity
      ensures Contents() == if ok then old(Contents()) + [x] else old(Contents())
    {
      if top >= Capacity - 1 {
        return false;
      }
      top := top + 1;
      data[top] := x;
      return true;
    }

    /** desempilha*: the top entry, removed; on an empty stack the sentinel
        (`None`) and no change. */
    method Pop() returns (r: Option<T>)
      requires Valid()
      modifies this
      ensures Valid()
      ensures old(Contents()) == [] ==> r.None? && Contents() == []
      ensures old(Contents()) != [] ==>
        var n := |old(Contents())|;
        r == Some(old(Contents())[n - 1]) && Contents() == old(Contents())[..n - 1]
    {
      if top == -1 {
        return None;
      }
      r := Some(data[top]);
      top := top - 1;
    }

    /** limparPilhaString: pop, and release, entry after entry until the
        stack is empty. */
    method Drain()
      requires Valid()
      modifies this
      ensures Valid() && Contents() == []
    {
      while top != -1
        invariant Valid()
        decreases top
      {
        var _ := Pop();
      }
    }
  }
}
