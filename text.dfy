/** Space-separated token streams: the postfix strings the converters write
    and that `strtok(copy, " ")` splits again. */
module Text {

  /** A token as `strtok` can return it: not empty and without a blank. */
  predicate IsWord(t: string) {
    t != [] && ' ' !in t
  }

  /** Length of the leading run of non-blank characters. */
  function RunLength(s: string): (n: nat)
    ensures n <= |s|
    ensures forall k :: 0 <= k < n ==> s[k] != ' '
    ensures n == |s| || s[n] == ' '
  {
    if s == [] || s[0] == ' ' then 0 else 1 + RunLength(s[1..])
  }

  /** The successive results of `strtok(s, " ")`, `strtok(NULL, " ")`, ...:
      the maximal runs of non-blank characters, empty pieces dropped. */
  function Tokens(s: string): (ts: seq<string>)
    ensures forall t <- ts :: IsWord(t)
    decreases |s|
  {
    if s == [] then []
    else if s[0] == ' ' then Tokens(s[1..])
    else
      var n := RunLength(s);
      assert n > 0;
      assert forall c <- s[..n] :: c != ' ';
      [s[..n]] + Tokens(s[n..])
  }

  /** The tokens written one after the other with a single blank between
      neighbours and none at either end. */
  function Join(ts: seq<string>): string {
    if ts == [] then ""
    else if |ts| == 1 then ts[0]
    else ts[0] + " " + Join(ts[1..])
  }

  /** The tokens each followed by one blank: the contents of an output buffer
      that every emission extends by a token and a space. */
  function Spaced(ts: seq<string>): (s: string)
    ensures |s| >= |ts|
  {
    if ts == [] then "" else Spaced(ts[..|ts| - 1]) + ts[|ts| - 1] + " "
  }

  /** The buffer with its last character cut off, as `buf[k - 1] = '\0'`
      does when `k > 0`. */
  function DropLast(s: string): string {
    if s == [] then s else s[..|s| - 1]
  }

  lemma {:induction false} SpacedOne(ts: seq<string>, t: string)
    ensures Spaced(ts + [t]) == Spaced(ts) + t + " "
  {
    assert (ts + [t])[..|ts|] == ts;
  }

  lemma {:induction false} SpacedAppend(a: seq<string>, b: seq<string>)
    ensures Spaced(a + b) == Spaced(a) + Spaced(b)
    decreases |b|
  {
    if b == [] {
      assert a + b == a;
    } else {
      var b' := b[..|b| - 1];
      assert a + b == (a + b') + [b[|b| - 1]];
      assert b == b' + [b[|b| - 1]];
      SpacedAppend(a, b');
      SpacedOne(a + b', b[|b| - 1]);
      SpacedOne(b', b[|b| - 1]);
    }
  }

  lemma {:induction false} SpacedCons(t: string, ts: seq<string>)
    ensures Spaced([t] + ts) == t + " " + Spaced(ts)
  {
    SpacedAppend([t], ts);
    assert Spaced([t]) == Spaced([]) + t + " ";
  }

  /** Cutting the final blank off the buffer leaves the blank-separated join:
      the converters' output has no trailing space. */
  lemma {:induction false} DropLastSpaced(ts: seq<string>)
    ensures DropLast(Spaced(ts)) == Join(ts)
    decreases |ts|
  {
    if ts == [] {
    } else if |ts| == 1 {
      assert Spaced(ts) == Spaced([]) + ts[0] + " ";
    } else {
      SpacedCons(ts[0], ts[1..]);
      assert [ts[0]] + ts[1..] == ts;
      DropLastSpaced(ts[1..]);
      var sp := Spaced(ts[1..]);
      assert sp != [] by { assert |sp| >= |ts[1..]|; }
      assert DropLast(ts[0] + " " + sp) == ts[0] + " " + DropLast(sp);
    }
  }

  lemma {:induction false} TokensSkip(a: string, b: string)
    requires forall k :: 0 <= k < |a| ==> a[k] == ' '
    ensures Tokens(a + b) == Tokens(b)
    decreases |a|
  {
    if a != [] {
      assert (a + b)[0] == ' ';
      assert (a + b)[1..] == a[1..] + b;
      TokensSkip(a[1..], b);
    } else {
      assert a + b == b;
    }
  }

  lemma {:induction false} TokensWord(t: string, rest: string)
    requires IsWord(t)
    requires rest == [] || rest[0] == ' '
    ensures Tokens(t + rest) == [t] + Tokens(rest)
  {
    var s := t + rest;
    RunLengthOf(t, rest);
    assert s[..|t|] == t;
    assert s[|t|..] == rest;
  }

  lemma {:induction false} RunLengthOf(t: string, rest: string)
    requires ' ' !in t
    requires rest == [] || rest[0] == ' '
    ensures RunLength(t + rest) == |t|
    decreases |t|
  {
    if t != [] {
      assert (t + rest)[1..] == t[1..] + rest;
      RunLengthOf(t[1..], rest);
    } else {
      assert t + rest == rest;
    }
  }

  /** Joining two non-empty runs of tokens is joining each and putting one
      blank between them. */
  lemma {:induction false} JoinAppend(a: seq<string>, b: seq<string>)
    requires a != [] && b != []
    ensures Join(a + b) == Join(a) + " " + Join(b)
    decreases |a|
  {
    assert (a + b)[1..] == a[1..] + b;
    if |a| > 1 {
      JoinAppend(a[1..], b);
      assert a[0] + " " + (Join(a[1..]) + " " + Join(b)) == (a[0] + " " + Join(a[1..])) + " " + Join(b);
    }
  }

  /** Splitting a join gives the tokens back: what one stage writes with
      single blanks, the next stage reads token for token. */
  lemma {:induction false} TokensJoin(ts: seq<string>)
    requires forall t <- ts :: IsWord(t)
    ensures Tokens(Join(ts)) == ts
    decreases |ts|
  {
    if ts == [] {
    } else if |ts| == 1 {
      TokensWord(ts[0], "");
      assert ts[0] + "" == ts[0];
    } else {
      var rest := " " + Join(ts[1..]);
      assert Join(ts) == ts[0] + rest;
      TokensWord(ts[0], rest);
      TokensSkip(" ", Join(ts[1..]));
      TokensJoin(ts[1..]);
      assert ts == [ts[0]] + ts[1..];
    }
  }
}
