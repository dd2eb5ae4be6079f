/** What the components share: a wrapper datatype, and searching in a text. */
module Basics {
  datatype Option<+T> = None | Some(value: T)

  lemma Associate<T>(a: seq<T>, b: seq<T>, c: seq<T>)
    ensures (a + b) + c == a + (b + c)
  {
  }

  /** Slices that meet. */
  lemma SliceJoin<T>(s: seq<T>, a: nat, b: nat, c: nat)
    requires a <= b <= c <= |s|
    ensures s[a..b] + s[b..c] == s[a..c]
  {
  }

  lemma SliceOfTail<T>(s: seq<T>, m: nat, a: nat, b: nat)
    requires m <= |s| && a <= b <= |s| - m
    ensures s[m..][a..b] == s[m + a..m + b]
  {
  }

  lemma TailOfTail<T>(s: seq<T>, m: nat, a: nat)
    requires m <= |s| && a <= |s| - m
    ensures s[m..][a..] == s[m + a..]
  {
  }

  lemma PrefixOfAppend<T>(a: seq<T>, b: seq<T>, n: nat)
    requires n <= |b|
    ensures (a + b)[..|a| + n] == a + b[..n]
  {
  }

  lemma SliceOfAppend<T>(a: seq<T>, b: seq<T>, from: nat, to: nat)
    requires from <= to <= |b|
    ensures (a + b)[|a| + from..|a| + to] == b[from..to]
  {
  }

  /** The two sides of an element. */
  lemma SidesOf<T>(a: seq<T>, x: T, b: seq<T>)
    ensures var s := a + ([x] + b); s[..|a|] == a && s[|a| + 1..] == b
  {
  }

  predicate IsDigit(c: char) { '0' <= c <= '9' }

  function Digit(n: nat): (c: char)
    requires n < 10
    ensures IsDigit(c) && (c - '0') as nat == n
  {
    '0' + n as char
  }

  /** A number as git prints it: decimal, without leading zeros. */
  function Numeral(n: nat): (s: string)
    ensures s != "" && forall i :: 0 <= i < |s| ==> IsDigit(s[i])
  {
    if n < 10 then [Digit(n)] else Numeral(n / 10) + [Digit(n % 10)]
  }

  lemma NumeralExamples()
    ensures Numeral(0) == "0" && Numeral(7) == "7" && Numeral(120) == "120"
  {
    assert Numeral(12) == Numeral(1) + [Digit(2)];
    assert Numeral(120) == Numeral(12) + [Digit(0)];
  }

  /** `find`: the first position of `c` not before `from`, or the length if there is none. */
  function Find(s: string, c: char, from: nat): (i: nat)
    requires from <= |s|
    ensures from <= i <= |s| && (i < |s| ==> s[i] == c)
    decreases |s| - from
  {
    if from == |s| || s[from] == c then from else Find(s, c, from + 1)
  }

  lemma {:induction false} FindSkips(s: string, c: char, from: nat, k: nat)
    requires from <= k < |s| && k < Find(s, c, from)
    ensures s[k] != c
    decreases |s| - from
  {
    if from < k {
      FindSkips(s, c, from + 1, k);
    }
  }

  lemma {:induction false} FindIs(s: string, c: char, from: nat, k: nat)
    requires from <= k <= |s| && (k < |s| ==> s[k] == c)
    requires forall i :: from <= i < k ==> s[i] != c
    ensures Find(s, c, from) == k
    decreases k - from
  {
    if from < k {
      FindIs(s, c, from + 1, k);
    }
  }

  /** Searching a tail of a text. */
  lemma FindShift(s: string, c: char, from: nat)
    requires from <= |s|
    ensures from + Find(s[from..], c, 0) == Find(s, c, from)
  {
    var k := Find(s, c, from);
    forall i | 0 <= i < k - from
      ensures s[from..][i] != c
    {
      FindSkips(s, c, from, from + i);
    }
    FindIs(s[from..], c, 0, k - from);
  }

  lemma FindAfter(w: string, c: char, rest: string)
    requires c !in w
    ensures Find(w + ([c] + rest), c, 0) == |w|
  {
    var s := w + ([c] + rest);
    assert forall i :: 0 <= i < |w| ==> s[i] == w[i] && w[i] in w;
    FindIs(s, c, 0, |w|);
  }
}
