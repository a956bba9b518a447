/** Generic sequence helpers: the newest `n` elements of a sequence, and reversal. */
module Seqs {

  function Min(a: nat, b: nat): nat {
    if a <= b then a else b
  }

  /** The last `min(n, |s|)` elements of `s`, kept in their original order. */
  function Last<T>(s: seq<T>, n: nat): (r: seq<T>)
    ensures |r| == Min(n, |s|)
    ensures forall j :: 0 <= j < |r| ==> r[j] == s[|s| - |r| + j]
  {
    s[|s| - Min(n, |s|)..]
  }

  /** `s` back to front. */
  function Reverse<T>(s: seq<T>): (r: seq<T>)
    ensures |r| == |s|
    ensures forall j :: 0 <= j < |s| ==> r[j] == s[|s| - 1 - j]
  {
    if |s| == 0 then [] else Reverse(s[1..]) + [s[0]]
  }

  /** Reversing a sequence with `x` in front puts `x` at the back. */
  lemma ReverseCons<T>(x: T, s: seq<T>)
    ensures Reverse([x] + s) == Reverse(s) + [x]
  {
    assert ([x] + s)[1..] == s;
  }

  /** Appending one element to `s` adds it to the newest `n + 1`. */
  lemma LastSnoc<T>(s: seq<T>, x: T, n: nat)
    ensures Last(s + [x], n + 1) == Last(s, n) + [x]
  {
    var r := Last(s + [x], n + 1);
    var q := Last(s, n) + [x];
    assert |r| == |q|;
    forall j | 0 <= j < |r|
      ensures r[j] == q[j]
    {
      if j < |r| - 1 {
        assert r[j] == (s + [x])[|s| + 1 - |r| + j];
      }
    }
  }

  /** Elements of `b` appended after `a` crowd out older ones: the newest `min(n, |b|)`
      elements of the newest `n` of `a + b` are the newest `n` of `b`. */
  lemma LastOfConcat<T>(a: seq<T>, b: seq<T>, n: nat)
    ensures Last(Last(a + b, n), Min(n, |b|)) == Last(b, n)
  {
    var m := Min(n, |b|);
    var w := Last(a + b, n);
    assert w == (a + b)[|a| + |b| - |w|..];
    assert Last(w, m) == w[|w| - m..];
    assert w[|w| - m..] == (a + b)[|a| + |b| - m..];
    assert (a + b)[|a| + |b| - m..] == b[|b| - m..];
  }
}
