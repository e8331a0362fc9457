/**
 How a byte string divides into newline-terminated lines.  A C++ `char` is a
 Dafny `char`; nothing below depends on its range.
 */
module Lines {

  predicate NoNewline(s: string) {
    forall i :: 0 <= i < |s| ==> s[i] != '\n'
  }

  /** A line as the tailer buffers it: one newline, at its end. */
  predicate IsLine(s: string) {
    |s| > 0 && s[|s| - 1] == '\n' && forall i :: 0 <= i < |s| - 1 ==> s[i] != '\n'
  }

  predicate AllLines(ls: seq<string>) {
    forall i :: 0 <= i < |ls| ==> IsLine(ls[i])
  }

  /** An offset at which a line starts. */
  predicate Boundary(s: string, p: nat) {
    p <= |s| && (p == 0 || s[p - 1] == '\n')
  }

  function Concat(ls: seq<string>): string {
    if ls == [] then "" else ls[0] + Concat(ls[1..])
  }

  /** Length of the first complete line of `s`, or 0 when `s` has none. */
  function FirstLineLength(s: string): (n: nat)
    ensures n <= |s|
    ensures n == 0 <==> NoNewline(s)
    ensures n > 0 ==> IsLine(s[..n])
  {
    if s == "" then 0
    else if s[0] == '\n' then 1
    else
      var n := FirstLineLength(s[1..]);
      assert forall i :: 0 <= i < n ==> s[i + 1] == s[1..][..n][i];
      if n == 0 then 0 else n + 1
  }

  /** The complete lines of `s`, each with its newline; an unfinished last line is left out. */
  function CompleteLines(s: string): (ls: seq<string>)
    ensures AllLines(ls)
    decreases |s|
  {
    var n := FirstLineLength(s);
    if n == 0 then [] else [s[..n]] + CompleteLines(s[n..])
  }

  lemma {:induction false} ConcatCons(l: string, ls: seq<string>)
    ensures Concat([l] + ls) == l + Concat(ls)
  {
    assert ([l] + ls)[1..] == ls;
  }

  lemma {:induction false} ConcatAppend(a: seq<string>, b: seq<string>)
    ensures Concat(a + b) == Concat(a) + Concat(b)
  {
    if a == [] {
      assert a + b == b;
    } else {
      assert (a + b)[1..] == a[1..] + b;
      ConcatAppend(a[1..], b);
    }
  }

  /** A line in front of any text is the first complete line of that text. */
  lemma {:induction false} FirstLineIs(l: string, rest: string)
    requires IsLine(l)
    ensures FirstLineLength(l + rest) == |l|
  {
    if |l| > 1 {
      assert (l + rest)[1..] == l[1..] + rest;
      FirstLineIs(l[1..], rest);
    }
  }

  lemma {:induction false} CompleteLinesCons(l: string, rest: string)
    requires IsLine(l)
    ensures CompleteLines(l + rest) == [l] + CompleteLines(rest)
  {
    FirstLineIs(l, rest);
    assert (l + rest)[..|l|] == l && (l + rest)[|l|..] == rest;
  }

  /**
   The division into lines is unique: newline-terminated lines followed by
   text without a newline are exactly the complete lines of their
   concatenation.
   */
  lemma {:induction false} LinesUnique(ls: seq<string>, tail: string)
    requires AllLines(ls) && NoNewline(tail)
    ensures CompleteLines(Concat(ls) + tail) == ls
  {
    if ls == [] {
      assert Concat(ls) + tail == tail;
    } else {
      LinesUnique(ls[1..], tail);
      assert Concat(ls) + tail == ls[0] + (Concat(ls[1..]) + tail);
      CompleteLinesCons(ls[0], Concat(ls[1..]) + tail);
    }
  }

  /** What follows the complete lines of `s`. */
  function Remainder(s: string): (r: string)
    ensures NoNewline(r)
    decreases |s|
  {
    var n := FirstLineLength(s);
    if n == 0 then s else Remainder(s[n..])
  }

  lemma {:induction false} Associative(a: string, b: string, c: string)
    ensures (a + b) + c == a + (b + c)
  {
  }

  lemma {:induction false} LinesAndRemainder(s: string)
    ensures Concat(CompleteLines(s)) + Remainder(s) == s
    decreases |s|
  {
    hide FirstLineLength, IsLine, NoNewline, AllLines;
    var n := FirstLineLength(s);
    if n > 0 {
      var l, rest := s[..n], s[n..];
      LinesAndRemainder(rest);
      Associative(l, Concat(CompleteLines(rest)), Remainder(rest));
      ConcatCons(l, CompleteLines(rest));
      assert l + rest == s;
    } else {
      assert Concat(CompleteLines(s)) + s == s;
    }
  }

  /** The first `k` complete lines are a prefix of the text; the others are the lines of what follows. */
  lemma {:induction false} PrefixLines(s: string, k: nat)
    requires k <= |CompleteLines(s)|
    ensures Concat(CompleteLines(s)[..k]) <= s
    ensures CompleteLines(s[|Concat(CompleteLines(s)[..k])|..]) == CompleteLines(s)[k..]
  {
    var ls := CompleteLines(s);
    var a, b, r := Concat(ls[..k]), Concat(ls[k..]), Remainder(s);
    LinesAndRemainder(s);
    assert ls == ls[..k] + ls[k..];
    ConcatAppend(ls[..k], ls[k..]);
    Associative(a, b, r);
    LinesUnique(ls[k..], r);
    PrefixAndRest(a, b + r);
  }

  lemma {:induction false} PrefixAndRest(a: string, b: string)
    ensures a <= a + b && (a + b)[|a|..] == b
  {
  }

  /** Lines concatenate to a text that ends at a line boundary. */
  lemma {:induction false} ConcatEndsAtBoundary(ls: seq<string>)
    requires AllLines(ls)
    ensures Boundary(Concat(ls), |Concat(ls)|)
    ensures ls != [] ==> |Concat(ls)| > 0
  {
    if ls != [] {
      ConcatEndsAtBoundary(ls[1..]);
      assert IsLine(ls[0]);
    }
  }

  /** Text appended later never changes the lines that were complete before. */
  lemma {:induction false} LinesMonotone(s: string, more: string)
    ensures CompleteLines(s) <= CompleteLines(s + more)
  {
    var a, t := CompleteLines(s), Remainder(s) + more;
    LinesAndRemainder(s);
    Associative(Concat(a), Remainder(s), more);
    LinesBeforeText(a, t);
  }

  lemma {:induction false} LinesBeforeText(a: seq<string>, t: string)
    requires AllLines(a)
    ensures CompleteLines(Concat(a) + t) == a + CompleteLines(t)
  {
    var b, r := CompleteLines(t), Remainder(t);
    LinesAndRemainder(t);
    ConcatAppend(a, b);
    Associative(Concat(a), Concat(b), r);
    LinesUnique(a + b, r);
  }
}
