/**
 `StringUtil`: split, join, in-place replaceAll and `$n` formatting.  A
 `std::string` is a Dafny string; lengths are unbounded.
 */
module StringUtil {
  import opened Prelude

  /** `p` occurs in `s` at index `i`. */
  predicate At(s: string, p: string, i: nat) {
    i + |p| <= |s| && s[i..i + |p|] == p
  }

  /** `std::string::find`: the first occurrence at or after `from`. */
  function Find(s: string, p: string, from: nat): (r: Option<nat>)
    ensures r.Some? ==> from <= r.value && r.value + |p| <= |s| && s[r.value..r.value + |p|] == p
    decreases |s| - from
  {
    if from + |p| > |s| then None
    else if At(s, p, from) then Some(from)
    else Find(s, p, from + 1)
  }

  lemma {:induction false} FindIsFirst(s: string, p: string, from: nat, i: nat)
    requires from <= i && At(s, p, i)
    ensures Find(s, p, from).Some? && Find(s, p, from).value <= i
    decreases |s| - from
  {
    if from < i && !At(s, p, from) {
      FindIsFirst(s, p, from + 1, i);
    }
  }

  /** The pieces of `s` between successive leftmost occurrences of `p`. */
  function Parts(s: string, p: string): (parts: seq<string>)
    requires p != ""
    ensures parts != []
    decreases |s|
  {
    var i := Find(s, p, 0);
    if i.None? then [s] else [s[..i.value]] + Parts(s[i.value + |p|..], p)
  }

  function Joined(list: seq<string>, sep: string): string {
    if list == [] then ""
    else if |list| == 1 then list[0]
    else list[0] + sep + Joined(list[1..], sep)
  }

  // ---------------------------------------------------------------- split and join

  /** Searching a suffix is searching from its start. */
  lemma {:induction false} FindShift(s: string, p: string, k: nat, from: nat)
    requires k <= |s|
    ensures Find(s[k..], p, from).None? <==> Find(s, p, k + from).None?
    ensures Find(s, p, k + from).Some? ==>
              k <= Find(s, p, k + from).value && Find(s[k..], p, from) == Some(Find(s, p, k + from).value - k)
    decreases |s| - from
  {
    hide At;
    if k + from + |p| <= |s| {
      AtSuffix(s, p, k, from);
      if !At(s, p, k + from) {
        FindShift(s, p, k, from + 1);
      }
    }
  }

  lemma {:induction false} AtSuffix(s: string, p: string, k: nat, i: nat)
    requires k <= |s|
    ensures At(s[k..], p, i) == At(s, p, k + i)
  {
  }

  /** Splitting and joining with the same pattern gives the string back. */
  lemma {:induction false} JoinSplit(s: string, p: string)
    requires p != ""
    ensures Joined(Parts(s, p), p) == s
    decreases |s|
  {
    var i := Find(s, p, 0);
    if i.Some? {
      var rest := s[i.value + |p|..];
      JoinSplit(rest, p);
      assert Parts(s, p)[1..] == Parts(rest, p);
      assert s == s[..i.value] + p + rest;
    }
  }

  /** `p` ends `l + p` and occurs nowhere earlier in it. */
  ghost predicate FirstAtEnd(l: string, p: string) {
    forall i: nat :: i < |l| ==> !At(l + p, p, i)
  }

  /**
   Every piece but the last is followed by an occurrence of `p` that starts
   nowhere earlier, and the last piece holds none.
   */
  ghost predicate Separable(list: seq<string>, p: string) {
    && list != []
    && (forall k :: 0 <= k < |list| - 1 ==> FirstAtEnd(list[k], p))
    && Find(list[|list| - 1], p, 0).None?
  }

  lemma {:induction false} AtPrefix(l: string, p: string, rest: string, i: nat)
    requires i <= |l|
    ensures At(l + p + rest, p, i) == At(l + p, p, i)
  {
    assert (l + p + rest)[i..i + |p|] == (l + p)[i..i + |p|];
  }

  lemma {:induction false} FindFirst(l: string, p: string, rest: string)
    requires FirstAtEnd(l, p)
    ensures Find(l + p + rest, p, 0) == Some(|l|)
  {
    var f := Find(l + p + rest, p, 0);
    assert At(l + p + rest, p, |l|);
    FindIsFirst(l + p + rest, p, 0, |l|);
    AtPrefix(l, p, rest, f.value);
  }

  /** The pieces are the only list that joins to `s` with no earlier occurrence inside a piece. */
  lemma {:induction false} SplitJoin(list: seq<string>, p: string)
    requires p != "" && Separable(list, p)
    ensures Parts(Joined(list, p), p) == list
  {
    hide Find, At, FirstAtEnd, Parts, Joined, Separable;
    SeparableTail(list, p);
    if |list| == 1 {
      assert list == [list[0]];
      SplitJoinOne(list[0], p);
    } else {
      var rest := Joined(list[1..], p);
      SplitJoin(list[1..], p);
      FindFirst(list[0], p, rest);
      SplitAt(list[0], p, rest);
      PartsUnfold(list[0] + p + rest, p, |list[0]|);
      assert list == [list[0]] + list[1..];
    }
  }

  lemma {:induction false} SplitJoinOne(l: string, p: string)
    requires p != "" && Separable([l], p)
    ensures Parts(Joined([l], p), p) == [l]
  {
  }

  lemma {:induction false} SeparableTail(list: seq<string>, p: string)
    requires p != "" && Separable(list, p)
    ensures |list| > 0
    ensures |list| > 1 ==>
              && FirstAtEnd(list[0], p) && Separable(list[1..], p)
              && Joined(list, p) == list[0] + p + Joined(list[1..], p)
  {
    hide Find, FirstAtEnd;
  }

  lemma {:induction false} SplitSeparable(s: string, p: string)
    requires p != ""
    ensures Separable(Parts(s, p), p)
    decreases |s|
  {
    hide Find, Parts, At;
    var i := Find(s, p, 0);
    if i.Some? {
      var l, rest := s[..i.value], s[i.value + |p|..];
      SplitSeparable(rest, p);
      PartsUnfold(s, p, i.value);
      FirstFound(s, p, i.value);
    } else {
      PartsOfUnbroken(s, p);
    }
  }

  lemma {:induction false} FirstFound(s: string, p: string, i: nat)
    requires Find(s, p, 0) == Some(i)
    ensures FirstAtEnd(s[..i], p)
  {
    var l, rest := s[..i], s[i + |p|..];
    assert s == l + p + rest;
    forall k: nat | k < i ensures !At(l + p, p, k) {
      AtPrefix(l, p, rest, k);
      if At(l + p, p, k) {
        FindIsFirst(s, p, 0, k);
      }
    }
  }

  lemma {:induction false} SplitAt(l: string, p: string, rest: string)
    ensures (l + p + rest)[..|l|] == l
    ensures (l + p + rest)[|l| + |p|..] == rest
  {
  }

  lemma {:induction false} PartsUnfold(s: string, p: string, i: nat)
    requires p != "" && Find(s, p, 0) == Some(i)
    ensures Parts(s, p) == [s[..i]] + Parts(s[i + |p|..], p)
  {
  }

  lemma {:induction false} PartsOfUnbroken(s: string, p: string)
    requires p != "" && Find(s, p, 0).None?
    ensures Parts(s, p) == [s]
  {
  }

  lemma {:induction false} SliceOfSuffix(s: string, begin: nat, i: nat)
    requires begin <= i <= |s|
    ensures s[begin..][..i - begin] == s[begin..i]
    ensures s[begin..][i - begin..] == s[i..]
  {
  }

  /** What the search at `begin` says about the pieces of the suffix. */
  lemma {:induction false} PartsOfSuffix(s: string, p: string, begin: nat)
    requires p != "" && begin <= |s|
    ensures var end := Find(s, p, begin);
            Parts(s[begin..], p) ==
            if end.None? then [s[begin..]]
            else [s[begin..end.value]] + Parts(s[end.value + |p|..], p)
  {
    hide Find, Parts;
    FindShift(s, p, begin, 0);
    var end := Find(s, p, begin);
    if end.Some? {
      PartsUnfold(s[begin..], p, end.value - begin);
      SliceOfSuffix(s, begin, end.value);
      SliceOfSuffix(s, begin, end.value + |p|);
    } else {
      PartsOfUnbroken(s[begin..], p);
    }
  }

  lemma {:induction false} AppendAssociative<T>(a: seq<T>, b: seq<T>, c: seq<T>)
    ensures a + (b + c) == (a + b) + c
  {
  }

  method Split(str: string, pattern: string) returns (parts: seq<string>)
    requires pattern != ""
    ensures parts == Parts(str, pattern)
  {
    parts := [];
    var begin := 0;
    assert str[0..] == str;
    while true
      invariant begin <= |str|
      invariant parts + Parts(str[begin..], pattern) == Parts(str, pattern)
      decreases |str| - begin
    {
      var end := Find(str, pattern, begin);
      PartsOfSuffix(str, pattern, begin);
      if end.None? {
        return parts + [str[begin..]];
      }
      AppendAssociative(parts, [str[begin..end.value]], Parts(str[end.value + |pattern|..], pattern));
      parts := parts + [str[begin..end.value]];
      begin := end.value + |pattern|;
    }
  }

  method Join(list: seq<string>, join: string) returns (out: string)
    ensures out == Joined(list, join)
  {
    out := "";
    for i := 0 to |list|
      invariant out == Joined(list[..i], join)
    {
      JoinedSnoc(list[..i], list[i], join);
      assert list[..i + 1] == list[..i] + [list[i]];
      if i > 0 {
        out := out + join;
      }
      out := out + list[i];
    }
    assert list[..|list|] == list;
  }

  lemma {:induction false} JoinedSnoc(list: seq<string>, x: string, sep: string)
    ensures Joined(list + [x], sep) == if list == [] then x else Joined(list, sep) + sep + x
  {
    if |list| > 1 {
      assert (list + [x])[1..] == list[1..] + [x];
      JoinedSnoc(list[1..], x, sep);
    }
  }

  // ---------------------------------------------------------------- replaceAll

  function Replaced(s: string, p: string, r: string): string
    requires p != ""
  {
    Joined(Parts(s, p), r)
  }

  lemma {:induction false} ReplacedStep(s: string, p: string, r: string, i: nat)
    requires p != "" && Find(s, p, 0) == Some(i)
    ensures Replaced(s, p, r) == s[..i] + r + Replaced(s[i + |p|..], p, r)
  {
  }

  /** Searching behind a prefix is searching the rest. */
  lemma {:induction false} FindBehind(done: string, tail: string, p: string)
    ensures Find(done + tail, p, |done|) ==
            if Find(tail, p, 0).None? then None else Some(|done| + Find(tail, p, 0).value)
  {
    assert (done + tail)[|done|..] == tail;
    FindShift(done + tail, p, |done|, 0);
  }

  /** `std::string::replace`: the `len` characters at `pos` become `r`. */
  function Splice(s: string, pos: nat, len: nat, r: string): string
    requires pos + len <= |s|
  {
    s[..pos] + r + s[pos + len..]
  }

  lemma {:induction false} SpliceBehind(done: string, tail: string, r: string, i: nat, n: nat)
    requires i + n <= |tail|
    ensures Splice(done + tail, |done| + i, n, r) == (done + tail[..i] + r) + tail[i + n..]
  {
  }

  /** One turn of the replacement loop, with the text split at the cursor. */
  lemma {:induction false} ReplaceTurn(done: string, tail: string, p: string, r: string, i: nat)
    requires p != "" && Find(tail, p, 0) == Some(i)
    ensures Splice(done + tail, |done| + i, |p|, r) == (done + tail[..i] + r) + tail[i + |p|..]
    ensures done + Replaced(tail, p, r) == (done + tail[..i] + r) + Replaced(tail[i + |p|..], p, r)
  {
    ReplacedStep(tail, p, r, i);
    Regroup(done, tail[..i], r, Replaced(tail[i + |p|..], p, r));
    SpliceBehind(done, tail, r, i, |p|);
  }

  lemma {:induction false} NextTurn(str: string, done: string, tail: string, p: string, r: string)
    returns (done': string, tail': string)
    requires p != "" && str == done + tail && Find(str, p, |done|).Some?
    ensures Splice(str, Find(str, p, |done|).value, |p|, r) == done' + tail'
    ensures |done'| == Find(str, p, |done|).value + |r| && |tail'| < |tail|
    ensures done + Replaced(tail, p, r) == done' + Replaced(tail', p, r)
  {
    hide Parts, Joined, Replaced, Find;
    FindBehind(done, tail, p);
    var i := Find(tail, p, 0).value;
    ReplaceTurn(done, tail, p, r, i);
    done', tail' := done + tail[..i] + r, tail[i + |p|..];
  }

  lemma {:induction false} SplitBehind(done: string, tail: string, i: nat)
    requires i <= |tail|
    ensures (done + tail)[..|done| + i] == done + tail[..i]
    ensures (done + tail)[|done| + i..] == tail[i..]
  {
  }

  lemma {:induction false} Regroup(a: string, b: string, c: string, d: string)
    ensures a + (b + c + d) == (a + b + c) + d
  {
  }

  /**
   Replaces every leftmost occurrence in place; the cursor skips each
   inserted replacement, so replacements are never rescanned.
   */
  method ReplaceAll(str0: string, pattern: string, replacement: string) returns (str: string)
    requires pattern != ""
    ensures str == Joined(Parts(str0, pattern), replacement)
  {
    str := str0;
    if |str| == 0 {
      return;
    }
    var cur := 0;
    var found := Find(str, pattern, cur);
    ghost var done, tail := "", str0;
    assert str == done + tail;
    while found.Some?
      invariant str == done + tail && cur == |done|
      invariant found == Find(str, pattern, cur)
      invariant done + Replaced(tail, pattern, replacement) == Replaced(str0, pattern, replacement)
      decreases |tail|
    {
      ghost var done', tail' := NextTurn(str, done, tail, pattern, replacement);
      str := Splice(str, found.value, |pattern|, replacement);
      cur := found.value + |replacement|;
      done, tail := done', tail';
      found := Find(str, pattern, cur);
    }
    FindBehind(done, tail, pattern);
  }

  // ---------------------------------------------------------------- format

  predicate IsDigit(c: char) {
    '0' <= c <= '9'
  }

  function DigitValue(c: char): (d: nat)
    requires IsDigit(c)
    ensures d < 10
  {
    c as int - '0' as int
  }

  /** `std::to_string` of a non-negative int. */
  function Decimal(n: nat): (s: string)
    ensures s != "" && forall i :: 0 <= i < |s| ==> IsDigit(s[i])
  {
    if n < 10 then [('0' as int + n) as char] else Decimal(n / 10) + Decimal(n % 10)
  }

  /** The number that decimal digits stand for. */
  function DecimalValue(s: string): nat
    requires forall i :: 0 <= i < |s| ==> IsDigit(s[i])
  {
    if s == "" then 0
    else
      assert IsDigit(s[|s| - 1]);
      10 * DecimalValue(s[..|s| - 1]) + (s[|s| - 1] as int - '0' as int)
  }

  /** The decimal digits of a number, without leading zeros. */
  lemma {:induction false} DecimalReads(n: nat)
    ensures DecimalValue(Decimal(n)) == n
    ensures n > 0 ==> Decimal(n)[0] != '0'
  {
    var last := Decimal(n % 10);
    assert last == [last[0]] && last[..0] == "";
    if n >= 10 {
      DecimalReads(n / 10);
      assert (Decimal(n / 10) + last)[..|Decimal(n)| - 1] == Decimal(n / 10);
    }
  }

  function Placeholder(n: nat): (p: string)
    ensures p != ""
  {
    "$" + Decimal(n)
  }

  /** One `replaceAll` per argument, in order. */
  function Sequential(s: string, argn: nat, values: seq<string>): string
    decreases |values|
  {
    if values == [] then s
    else Sequential(Replaced(s, Placeholder(argn), values[0]), argn + 1, values[1..])
  }

  method FormatImpl(scratch: string, argn: nat, values: seq<string>) returns (str: string)
    requires values != []
    ensures str == Sequential(scratch, argn, values)
    decreases |values|
  {
    str := ReplaceAll(scratch, Placeholder(argn), values[0]);
    if |values| > 1 {
      str := FormatImpl(str, argn + 1, values[1..]);
    }
  }

  /** `format` and `formatv`; the variadic `format` has at least one argument. */
  method Format(fmt: string, values: seq<string>) returns (str: string)
    requires values != []
    ensures str == Sequential(fmt, 0, values)
  {
    str := FormatImpl(fmt, 0, values);
  }

  method Formatv(fmt: string, values: seq<string>) returns (str: string)
    ensures str == Sequential(fmt, 0, values)
  {
    str := fmt;
    for i := 0 to |values|
      invariant Sequential(str, i, values[i..]) == Sequential(fmt, 0, values)
    {
      assert values[i..][1..] == values[i + 1..];
      str := ReplaceAll(str, Placeholder(i), values[i]);
    }
  }

  /** The intended meaning: each `$d` of the template becomes argument `d`, all at once. */
  function Simultaneous(t: string, values: seq<string>): string {
    if t == "" then ""
    else if |t| >= 2 && t[0] == '$' && IsDigit(t[1]) && DigitValue(t[1]) < |values| then
      values[DigitValue(t[1])] + Simultaneous(t[2..], values)
    else [t[0]] + Simultaneous(t[1..], values)
  }

  predicate NoDollar(s: string) {
    forall i :: 0 <= i < |s| ==> s[i] != '$'
  }

  predicate NoDollars(values: seq<string>) {
    forall i :: 0 <= i < |values| ==> NoDollar(values[i])
  }

  /** No `$` of the template stands directly before a placeholder. */
  predicate Settled(t: string) {
    forall i :: 0 <= i < |t| - 2 && t[i] == '$' && t[i + 1] == '$' ==> !IsDigit(t[i + 2])
  }

  /** No `$` is followed by a digit: there is nothing to replace. */
  predicate Inert(s: string) {
    forall i :: 0 <= i < |s| - 1 && s[i] == '$' ==> !IsDigit(s[i + 1])
  }

  /** Reading the text from the left: an occurrence at the start is replaced, else the first character stays. */
  lemma {:induction false} ReplacedHere(p: string, rest: string, r: string)
    requires p != ""
    ensures Replaced(p + rest, p, r) == r + Replaced(rest, p, r)
  {
    hide Find, At, Parts, Replaced;
    FindHere(p, rest);
    ReplacedStep(p + rest, p, r, 0);
    assert (p + rest)[|p|..] == rest && (p + rest)[..0] + r == r;
  }

  lemma {:induction false} FindHere(p: string, rest: string)
    ensures Find(p + rest, p, 0) == Some(0)
  {
    assert (p + rest)[0..|p|] == p;
  }

  lemma {:induction false} NotAtHead(c: char, rest: string, p: string)
    requires p != "" && p[0] != c
    ensures !At([c] + rest, p, 0)
  {
  }

  lemma {:induction false} ReplacedLater(c: char, rest: string, p: string, r: string)
    requires p != "" && !At([c] + rest, p, 0)
    ensures Replaced([c] + rest, p, r) == [c] + Replaced(rest, p, r)
  {
    hide At, Find, Parts, Replaced;
    var s := [c] + rest;
    FindLater(c, rest, p);
    var i := Find(rest, p, 0);
    if i.Some? {
      ReplacedStep(rest, p, r, i.value);
      ReplacedStep(s, p, r, i.value + 1);
      SplitBehind([c], rest, i.value);
      SplitBehind([c], rest, i.value + |p|);
      Regroup([c], rest[..i.value], r, Replaced(rest[i.value + |p|..], p, r));
    } else {
      ReplacedUnbroken(s, p, r);
      ReplacedUnbroken(rest, p, r);
    }
  }

  lemma {:induction false} ReplacedUnbroken(s: string, p: string, r: string)
    requires p != "" && Find(s, p, 0).None?
    ensures Replaced(s, p, r) == s
  {
  }

  lemma {:induction false} FindLater(c: char, rest: string, p: string)
    requires p != "" && !At([c] + rest, p, 0)
    ensures Find([c] + rest, p, 0) == if Find(rest, p, 0).None? then None else Some(Find(rest, p, 0).value + 1)
  {
    hide At;
    FindBehind([c], rest, p);
  }

  /** Text without a `$` passes through every placeholder replacement. */
  lemma {:induction false} ReplacedBehindPlain(a: string, rest: string, n: nat, r: string)
    requires NoDollar(a)
    ensures Replaced(a + rest, Placeholder(n), r) == a + Replaced(rest, Placeholder(n), r)
  {
    hide Replaced, At;
    if a == "" {
      assert a + rest == rest;
    } else {
      assert a + rest == [a[0]] + (a[1..] + rest);
      NotAtHead(a[0], a[1..] + rest, Placeholder(n));
      ReplacedLater(a[0], a[1..] + rest, Placeholder(n), r);
      ReplacedBehindPlain(a[1..], rest, n, r);
    }
  }

  lemma {:induction false} ReplacedEmpty(p: string, r: string)
    requires p != ""
    ensures Replaced("", p, r) == ""
  {
  }

  // One placeholder number at a time: `Simultaneous(t, values[..k])` is the
  // text after the first `k` replacements.

  lemma {:induction false} StepSkips(c: char, rest: string, k: nat, r: string)
    requires c != '$'
    ensures Replaced([c] + rest, Placeholder(k), r) == [c] + Replaced(rest, Placeholder(k), r)
  {
    NotAtHead(c, rest, Placeholder(k));
    ReplacedLater(c, rest, Placeholder(k), r);
  }

  /** Replacing `$k` at a `$d` that starts the text. */
  lemma {:induction false} StepAtDollar(d: char, rest: string, k: nat, r: string)
    requires IsDigit(d) && k < 10
    ensures Replaced("$" + [d] + rest, Placeholder(k), r)
         == (if DigitValue(d) == k then r else "$" + [d]) + Replaced(rest, Placeholder(k), r)
  {
    hide Replaced, At;
    assert Placeholder(k) == ['$', ('0' as int + k) as char];
    if DigitValue(d) == k {
      assert "$" + [d] == Placeholder(k);
      ReplacedHere(Placeholder(k), rest, r);
    } else {
      var tail := [d] + rest;
      assert "$" + [d] + rest == ['$'] + tail;
      NotAtDollar(d, rest, k);
      ReplacedLater('$', tail, Placeholder(k), r);
      StepSkips(d, rest, k, r);
      assert ['$'] + ([d] + Replaced(rest, Placeholder(k), r)) == "$" + [d] + Replaced(rest, Placeholder(k), r);
    }
  }

  lemma {:induction false} NotAtDollar(d: char, rest: string, k: nat)
    requires IsDigit(d) && k < 10 && DigitValue(d) != k
    ensures !At(['$'] + ([d] + rest), Placeholder(k), 0)
  {
    assert (['$'] + ([d] + rest))[0..2][1] == d;
  }

  lemma {:induction false} SettledTail(t: string, k: nat)
    requires Settled(t) && k <= |t|
    ensures Settled(t[k..])
  {
  }

  predicate StartsPlaceholder(t: string) {
    |t| >= 2 && t[0] == '$' && IsDigit(t[1])
  }

  /** A `$` that starts no placeholder stays, and what follows it does not start with a digit. */
  lemma {:induction false} DollarStays(t: string, values: seq<string>)
    requires Settled(t) && t != "" && t[0] == '$' && !StartsPlaceholder(t)
    ensures var rest := Simultaneous(t[1..], values);
            Simultaneous(t, values) == ['$'] + rest && (rest == "" || !IsDigit(rest[0]))
  {
  }

  lemma {:induction false} NotBeforeDigit(rest: string, n: nat)
    requires rest == "" || !IsDigit(rest[0])
    ensures !At(['$'] + rest, Placeholder(n), 0)
  {
    var p := Placeholder(n);
    assert p[1] == Decimal(n)[0];
    if |p| <= |['$'] + rest| {
      assert (['$'] + rest)[0..|p|][1] == rest[0];
    }
  }

  lemma {:induction false} StepSimultaneous(t: string, values: seq<string>, k: nat)
    requires Settled(t) && k < |values| && k < 10 && NoDollars(values)
    ensures Replaced(Simultaneous(t, values[..k]), Placeholder(k), values[k]) == Simultaneous(t, values[..k + 1])
    decreases |t|
  {
    hide Replaced, At, Placeholder, Settled;
    if t == "" {
      ReplacedEmpty(Placeholder(k), values[k]);
    } else if StartsPlaceholder(t) {
      SettledTail(t, 2);
      StepSimultaneous(t[2..], values, k);
      SimultaneousAtDollar(t, values[..k]);
      SimultaneousAtDollar(t, values[..k + 1]);
      var d, rest := DigitValue(t[1]), Simultaneous(t[2..], values[..k]);
      if d < k {
        ReplacedBehindPlain(values[d], rest, k, values[k]);
      } else {
        StepAtDollar(t[1], rest, k, values[k]);
      }
    } else {
      SettledTail(t, 1);
      StepSimultaneous(t[1..], values, k);
      var rest := Simultaneous(t[1..], values[..k]);
      if t[0] == '$' {
        DollarStays(t, values[..k]);
        NotBeforeDigit(rest, k);
        ReplacedLater('$', rest, Placeholder(k), values[k]);
      } else {
        StepSkips(t[0], rest, k, values[k]);
      }
    }
  }

  lemma {:induction false} SimultaneousAtDollar(t: string, values: seq<string>)
    requires |t| >= 2 && t[0] == '$' && IsDigit(t[1])
    ensures Simultaneous(t, values)
         == (if DigitValue(t[1]) < |values| then values[DigitValue(t[1])] else "$" + [t[1]])
          + Simultaneous(t[2..], values)
  {
  }

  lemma {:induction false} SimultaneousNone(t: string)
    ensures Simultaneous(t, []) == t
  {
    if t != "" {
      SimultaneousNone(t[1..]);
    }
  }

  /** With ten arguments available no placeholder is left over, and further arguments are never used. */
  lemma {:induction false} SimultaneousTen(t: string, values: seq<string>)
    requires Settled(t) && |values| >= 10 && NoDollars(values)
    ensures Simultaneous(t, values) == Simultaneous(t, values[..10]) && Inert(Simultaneous(t, values))
    decreases |t|
  {
    hide Settled;
    if t != "" {
      if StartsPlaceholder(t) {
        SettledTail(t, 2);
        SimultaneousTen(t[2..], values);
        assert NoDollar(values[DigitValue(t[1])]);
      } else {
        SettledTail(t, 1);
        SimultaneousTen(t[1..], values);
        if t[0] == '$' {
          DollarStays(t, values);
        }
      }
    }
  }

  lemma {:induction false} FoundNotInert(s: string, n: nat)
    requires Find(s, Placeholder(n), 0).Some?
    ensures !Inert(s)
  {
    var p := Placeholder(n);
    var i := Find(s, p, 0).value;
    assert p[1] == Decimal(n)[0];
    assert s[i] == s[i..i + |p|][0] && s[i + 1] == s[i..i + |p|][1];
  }

  lemma {:induction false} SequentialInert(s: string, argn: nat, values: seq<string>)
    requires Inert(s)
    ensures Sequential(s, argn, values) == s
    decreases |values|
  {
    hide Inert, Replaced;
    if values != [] {
      if Find(s, Placeholder(argn), 0).Some? {
        FoundNotInert(s, argn);
      }
      ReplacedUnbroken(s, Placeholder(argn), values[0]);
      SequentialInert(s, argn + 1, values[1..]);
    }
  }

  lemma {:induction false} SequentialFrom(t: string, values: seq<string>, k: nat)
    requires Settled(t) && k <= |values| && k <= 10 && NoDollars(values)
    ensures Sequential(Simultaneous(t, values[..k]), k, values[k..]) == Simultaneous(t, values)
    decreases 10 - k
  {
    if k == |values| {
      assert values[..k] == values;
    } else if k < 10 {
      StepSimultaneous(t, values, k);
      assert values[k..][1..] == values[k + 1..];
      SequentialFrom(t, values, k + 1);
    } else {
      SimultaneousTen(t, values);
      SequentialInert(Simultaneous(t, values[..10]), k, values[k..]);
    }
  }

  /** With all arguments free of `$`, formatting with this template means replacing all at once. */
  ghost predicate Faithful(t: string) {
    forall values :: NoDollars(values) ==> Sequential(t, 0, values) == Simultaneous(t, values)
  }

  /**
   Replacing placeholder after placeholder means the same as replacing all at
   once, for any number of arguments free of `$`, exactly when no `$` of the
   template stands directly before a placeholder.
   */
  lemma {:induction false} FormatIsSimultaneous(t: string)
    ensures Faithful(t) <==> Settled(t)
  {
    hide Sequential, Simultaneous;
    if Settled(t) {
      forall values | NoDollars(values) ensures Sequential(t, 0, values) == Simultaneous(t, values) {
        SimultaneousNone(t);
        assert values[..0] == [] && values[0..] == values;
        SequentialFrom(t, values, 0);
      }
    } else {
      var i :| 0 <= i < |t| - 2 && t[i] == '$' && t[i + 1] == '$' && IsDigit(t[i + 2]);
      UnsettledFails(t, i);
    }
  }

  /** Arguments that complete the `$` before `$d` to a later placeholder, and replace that. */
  function Completing(d: nat): (values: seq<string>)
    ensures |values| == d + 2 && NoDollars(values)
    ensures values[d] == Decimal(d + 1) && values[d + 1] == "x"
  {
    seq(d + 2, j => if j == d then Decimal(d + 1) else "x")
  }

  lemma {:induction false} UnsettledFails(t: string, i: nat)
    requires i < |t| - 2 && t[i] == '$' && t[i + 1] == '$' && IsDigit(t[i + 2])
    ensures var values := Completing(DigitValue(t[i + 2]));
            NoDollars(values) && Sequential(t, 0, values) != Simultaneous(t, values)
  {
    hide Sequential, Simultaneous, At, Decimal;
    var d := DigitValue(t[i + 2]);
    var values := Completing(d);
    var j := DollarKept(t, values, i);
    var before := SequentialEnds(t, 0, values);
    ReplacedLeavesNone(before, d + 1, j);
  }

  lemma {:induction false} DollarKept(t: string, values: seq<string>, i: nat) returns (j: nat)
    requires i < |t| - 2 && t[i] == '$' && t[i + 1] == '$' && IsDigit(t[i + 2])
    requires DigitValue(t[i + 2]) < |values|
    ensures At(Simultaneous(t, values), "$" + values[DigitValue(t[i + 2])], j)
    decreases |t|
  {
    hide At;
    if i == 0 {
      var v, rest := values[DigitValue(t[2])], Simultaneous(t[3..], values);
      SimultaneousAtDollar(t[1..], values);
      assert t[1..][2..] == t[3..];
      assert Simultaneous(t, values) == ['$'] + (v + rest);
      AtStart("$" + v, rest);
      assert ['$'] + (v + rest) == "$" + v + rest;
      j := 0;
    } else if StartsPlaceholder(t) {
      SimultaneousAtDollar(t, values);
      j := DollarKept(t[2..], values, i - 2);
      var front := if DigitValue(t[1]) < |values| then values[DigitValue(t[1])] else "$" + [t[1]];
      j := AtBehind(front, Simultaneous(t[2..], values), "$" + values[DigitValue(t[i + 2])], j);
    } else {
      j := DollarKept(t[1..], values, i - 1);
      j := AtBehind([t[0]], Simultaneous(t[1..], values), "$" + values[DigitValue(t[i + 2])], j);
    }
  }

  lemma {:induction false} AtStart(p: string, rest: string)
    ensures At(p + rest, p, 0)
  {
    assert (p + rest)[0..|p|] == p;
  }

  lemma {:induction false} AtBehind(front: string, s: string, p: string, i: nat) returns (j: nat)
    requires At(s, p, i)
    ensures At(front + s, p, j)
  {
    j := |front| + i;
    assert (front + s)[j..j + |p|] == s[i..i + |p|];
  }

  lemma {:induction false} SequentialEnds(s: string, argn: nat, values: seq<string>) returns (before: string)
    requires values != []
    ensures
      Sequential(s, argn, values) ==
        Replaced(before, Placeholder(argn + |values| - 1), values[|values| - 1])
    decreases |values|
  {
    hide Replaced, Placeholder;
    if |values| == 1 {
      return s;
    }
    before := SequentialEnds(Replaced(s, Placeholder(argn), values[0]), argn + 1, values[1..]);
  }

  lemma {:induction false} ReplacedLeavesNone(s: string, n: nat, j: nat)
    ensures !At(Replaced(s, Placeholder(n), "x"), Placeholder(n), j)
    decreases |s|
  {
    hide Replaced, Find;
    var p := Placeholder(n);
    var out := Replaced(s, p, "x");
    if s == "" {
      ReplacedEmpty(p, "x");
    } else if At(s, p, 0) {
      assert s == p + s[|p|..];
      ReplacedHere(p, s[|p|..], "x");
      if j == 0 {
        NotAtHead('x', Replaced(s[|p|..], p, "x"), p);
      } else {
        ReplacedLeavesNone(s[|p|..], n, j - 1);
        NotAtOnward('x', Replaced(s[|p|..], p, "x"), p, j);
      }
    } else {
      assert s == [s[0]] + s[1..];
      ReplacedLater(s[0], s[1..], p, "x");
      var rest := Replaced(s[1..], p, "x");
      if j > 0 {
        ReplacedLeavesNone(s[1..], n, j - 1);
        NotAtOnward(s[0], rest, p, j);
      } else if At([s[0]] + rest, p, 0) {
        HeadStoodThere(s[0], s[1..], n);
      }
    }
  }

  lemma {:induction false} HeadStoodThere(c: char, tail: string, n: nat)
    requires At([c] + Replaced(tail, Placeholder(n), "x"), Placeholder(n), 0)
    ensures At([c] + tail, Placeholder(n), 0)
  {
    hide Replaced;
    var p := Placeholder(n);
    var rest := Replaced(tail, p, "x");
    assert ([c] + rest)[0..|p|] == [c] + rest[..|p| - 1];
    assert rest[..|p| - 1] == p[1..] == Decimal(n);
    DigitsUntouched(tail, n, Decimal(n));
    assert ([c] + tail)[0..|p|] == [c] + tail[..|p| - 1];
  }

  lemma {:induction false} NotAtOnward(c: char, rest: string, p: string, j: nat)
    requires j > 0 && !At(rest, p, j - 1)
    ensures !At([c] + rest, p, j)
  {
  }

  /** Digits at the start of the result stood at the start before: an `x` is not one. */
  lemma {:induction false} DigitsUntouched(s: string, n: nat, w: string)
    requires w <= Replaced(s, Placeholder(n), "x")
    requires forall i :: 0 <= i < |w| ==> IsDigit(w[i])
    ensures w <= s
    decreases |w|
  {
    hide Replaced, Find, At, Placeholder;
    var p := Placeholder(n);
    if w != "" {
      assert IsDigit(w[0]) && w[0] == Replaced(s, p, "x")[0];
      if s == "" {
        ReplacedEmpty(p, "x");
      } else if At(s, p, 0) {
        ReplacedStarts(s, p, "x");
      } else {
        assert s == [s[0]] + s[1..];
        ReplacedLater(s[0], s[1..], p, "x");
        assert w[1..] <= Replaced(s[1..], p, "x");
        DigitsUntouched(s[1..], n, w[1..]);
      }
    }
  }

  lemma {:induction false} ReplacedStarts(s: string, p: string, r: string)
    requires p != "" && At(s, p, 0)
    ensures r <= Replaced(s, p, r)
  {
  }

  // What holds for all arguments, also those that contain `$`.

  /** Every placeholder that has one of `n` arguments is for the last of them. */
  predicate OnlyLast(t: string, n: nat) {
    forall i :: 0 <= i < |t| - 1 && t[i] == '$' && IsDigit(t[i + 1]) && DigitValue(t[i + 1]) < n ==>
                  DigitValue(t[i + 1]) == n - 1
  }

  ghost predicate AgreesOn(t: string, n: nat) {
    forall values :: |values| == n ==> Sequential(t, 0, values) == Simultaneous(t, values)
  }

  /**
   With `n` arguments of any kind, formatting means replacing all at once
   exactly when no placeholder but that of the last argument occurs: the
   replacement of any other is scanned again.
   */
  lemma {:induction false} FormatRescansArguments(t: string, n: nat)
    ensures AgreesOn(t, n) <==> OnlyLast(t, n)
  {
    hide Sequential, Simultaneous;
    if OnlyLast(t, n) {
      forall values | |values| == n ensures Sequential(t, 0, values) == Simultaneous(t, values) {
        OnlyLastAgrees(t, values);
      }
    } else {
      var i :| 0 <= i < |t| - 1 && t[i] == '$' && IsDigit(t[i + 1]) && DigitValue(t[i + 1]) < n - 1;
      EarlierRescanned(t, n, i);
    }
  }

  lemma {:induction false} FirstDigit(n: nat)
    ensures DigitValue(Decimal(n)[0]) <= n
    decreases n
  {
    if n >= 10 {
      FirstDigit(n / 10);
    }
  }

  /** A placeholder that occurs starts with a digit no larger than its number. */
  lemma {:induction false} OccurrenceStarts(t: string, n: nat, i: nat)
    requires At(t, Placeholder(n), i)
    ensures i < |t| - 1 && t[i] == '$' && IsDigit(t[i + 1]) && DigitValue(t[i + 1]) <= n
  {
    var p := Placeholder(n);
    FirstDigit(n);
    assert p[1] == Decimal(n)[0];
    assert t[i] == t[i..i + |p|][0] && t[i + 1] == t[i..i + |p|][1];
  }

  lemma {:induction false} EarlierAbsent(t: string, n: nat, k: nat)
    requires OnlyLast(t, n) && k < n - 1
    ensures Find(t, Placeholder(k), 0).None?
  {
    hide Placeholder;
    var i := Find(t, Placeholder(k), 0);
    if i.Some? {
      OccurrenceStarts(t, k, i.value);
    }
  }

  lemma {:induction false} OnlyLastAgrees(t: string, values: seq<string>)
    requires OnlyLast(t, |values|)
    ensures Sequential(t, 0, values) == Simultaneous(t, values)
  {
    hide Sequential, Simultaneous, Replaced, OnlyLast;
    if values == [] {
      SimultaneousNone(t);
      NoValues(t);
    } else {
      assert values[0..] == values;
      SkipsToLast(t, values, 0);
      LastArgument(t, values);
    }
  }

  lemma {:induction false} NoValues(t: string)
    ensures Sequential(t, 0, []) == t
  {
  }

  /** The replacements before the last find nothing. */
  lemma {:induction false} SkipsToLast(t: string, values: seq<string>, k: nat)
    requires OnlyLast(t, |values|) && k < |values|
    ensures Sequential(t, k, values[k..]) == Replaced(t, Placeholder(|values| - 1), values[|values| - 1])
    decreases |values| - k
  {
    hide Replaced, OnlyLast, Placeholder;
    assert values[k..][0] == values[k] && values[k..][1..] == values[k + 1..];
    if k < |values| - 1 {
      EarlierAbsent(t, |values|, k);
      ReplacedUnbroken(t, Placeholder(k), values[k]);
      SkipsToLast(t, values, k + 1);
    }
  }

  lemma {:induction false} LastArgument(t: string, values: seq<string>)
    requires OnlyLast(t, |values|) && values != []
    ensures Replaced(t, Placeholder(|values| - 1), values[|values| - 1]) == Simultaneous(t, values)
    decreases |t|
  {
    hide Replaced, Find, At;
    var k, v := |values| - 1, values[|values| - 1];
    if t == "" {
      ReplacedEmpty(Placeholder(k), v);
    } else if StartsPlaceholder(t) && DigitValue(t[1]) < |values| {
      assert DigitValue(t[1]) == k && Placeholder(k) == ['$', t[1]];
      assert t == Placeholder(k) + t[2..];
      ReplacedHere(Placeholder(k), t[2..], v);
      OnlyLastTail(t, 2, |values|);
      LastArgument(t[2..], values);
    } else {
      assert t == [t[0]] + t[1..];
      if At(t, Placeholder(k), 0) {
        OccurrenceStarts(t, k, 0);
      }
      ReplacedLater(t[0], t[1..], Placeholder(k), v);
      OnlyLastTail(t, 1, |values|);
      LastArgument(t[1..], values);
    }
  }

  lemma {:induction false} OnlyLastTail(t: string, k: nat, n: nat)
    requires OnlyLast(t, n) && k <= |t|
    ensures OnlyLast(t[k..], n)
  {
    assert forall i :: 0 <= i < |t[k..]| ==> t[k..][i] == t[k + i];
  }

  /** Arguments whose number `d` is the placeholder of the last one. */
  function Pointing(n: nat, d: nat): (values: seq<string>)
    requires d < n - 1
    ensures |values| == n && values[d] == Placeholder(n - 1) && values[n - 1] == "x"
  {
    seq(n, j => if j == d then Placeholder(n - 1) else "x")
  }

  lemma {:induction false} EarlierRescanned(t: string, n: nat, i: nat)
    requires i < |t| - 1 && t[i] == '$' && IsDigit(t[i + 1]) && DigitValue(t[i + 1]) < n - 1
    ensures var values := Pointing(n, DigitValue(t[i + 1]));
            Sequential(t, 0, values) != Simultaneous(t, values)
  {
    hide Sequential, Simultaneous, At, Placeholder;
    var values := Pointing(n, DigitValue(t[i + 1]));
    var j := ArgumentPlaced(t, values, i);
    var before := SequentialEnds(t, 0, values);
    ReplacedLeavesNone(before, n - 1, j);
  }

  /** Each placeholder with an argument shows up as the argument. */
  lemma {:induction false} ArgumentPlaced(t: string, values: seq<string>, i: nat) returns (j: nat)
    requires i < |t| - 1 && t[i] == '$' && IsDigit(t[i + 1]) && DigitValue(t[i + 1]) < |values|
    ensures At(Simultaneous(t, values), values[DigitValue(t[i + 1])], j)
    decreases |t|
  {
    hide At;
    var v := values[DigitValue(t[i + 1])];
    if i == 0 {
      AtStart(v, Simultaneous(t[2..], values));
      j := 0;
    } else if StartsPlaceholder(t) {
      SimultaneousAtDollar(t, values);
      j := ArgumentPlaced(t[2..], values, i - 2);
      var front := if DigitValue(t[1]) < |values| then values[DigitValue(t[1])] else "$" + [t[1]];
      j := AtBehind(front, Simultaneous(t[2..], values), v, j);
    } else {
      j := ArgumentPlaced(t[1..], values, i - 1);
      j := AtBehind([t[0]], Simultaneous(t[1..], values), v, j);
    }
  }

  /** With a single argument nothing is scanned twice. */
  lemma {:induction false} FormatOneArgument(t: string, value: string)
    ensures Sequential(t, 0, [value]) == Simultaneous(t, [value])
  {
    OnlyLastAgrees(t, [value]);
  }
}
