/** Sequence helpers shared by mesh loading and primitive assembly. */
module Seqs {

  /** The in-order concatenation of a list of lists. */
  function Concat<T>(ss: seq<seq<T>>): (r: seq<T>)
  {
    if ss == [] then [] else ss[0] + Concat(ss[1..])
  }

  /** Euclidean division is determined by any quotient/remainder pair. */
  lemma DivModUnique(x: int, n: int, q: int, r: int)
    requires n > 0 && 0 <= r < n && x == q * n + r
    ensures x / n == q && x % n == r
  {
    var q', r' := x / n, x % n;
    assert (q' - q) * n == r - r' by {
      assert x == q' * n + r';
    }
    if q' > q {
      MulAtLeast(q' - q, n);
    } else if q' < q {
      MulAtLeast(q - q', n);
    }
  }

  lemma {:induction false} MulAtLeast(d: int, n: int)
    requires d >= 1 && n > 0
    ensures d * n >= n
    decreases d
  {
    if d > 1 {
      MulAtLeast(d - 1, n);
      assert d * n == (d - 1) * n + n;
    }
  }

  /** Removing one chunk of `n` lowers the chunk count by one and keeps the remainder. */
  lemma DropOneChunk(a: int, n: int)
    requires n > 0 && a >= n
    ensures (a - 1) / n == (a + n - 1) / n - 1
    ensures (a - n) % n == a % n
  {
    DivModUnique(a + n - 1, n, (a - 1) / n + 1, (a - 1) % n);
    DivModUnique(a, n, (a - n) / n + 1, (a - n) % n);
  }

  /**
   * Rust's `slice::chunks(n)`: consecutive pieces of length `n`, only the
   * last possibly shorter, none empty, whose concatenation is `s`.
   */
  function Chunks<T>(s: seq<T>, n: nat): (cs: seq<seq<T>>)
    requires n > 0
    ensures forall i :: 0 <= i < |cs| ==> 0 < |cs[i]| <= n
    ensures forall i :: 0 <= i < |cs| - 1 ==> |cs[i]| == n
    ensures Concat(cs) == s
    decreases |s|
  {
    if s == [] then []
    else if |s| <= n then
      assert Concat([s]) == s + Concat<T>([]);
      [s]
    else
      assert s == s[..n] + s[n..];
      [s[..n]] + Chunks(s[n..], n)
  }

  /**
   * `chunks(n)` yields ceil(|s| / n) pieces, and every piece is full exactly
   * when `n` divides the length.
   */
  lemma {:induction false} ChunkCount<T>(s: seq<T>, n: nat)
    requires n > 0
    ensures |Chunks(s, n)| == (|s| + n - 1) / n
    ensures (|s| % n == 0) <==> (forall i :: 0 <= i < |Chunks(s, n)| ==> |Chunks(s, n)[i]| == n)
    decreases |s|
  {
    var cs := Chunks(s, n);
    if s == [] {
      DivModUnique(n - 1, n, 0, n - 1);
      DivModUnique(0, n, 0, 0);
    } else if |s| <= n {
      DivModUnique(|s| + n - 1, n, 1, |s| - 1);
      if |s| < n {
        DivModUnique(|s|, n, 0, |s|);
      } else {
        DivModUnique(|s|, n, 1, 0);
      }
    } else {
      ChunkCount(s[n..], n);
      DropOneChunk(|s|, n);
      assert cs[1..] == Chunks(s[n..], n);
    }
  }

  lemma AppendAssoc<T>(a: seq<T>, b: seq<T>, c: seq<T>)
    ensures a + (b + c) == (a + b) + c
  {
  }
}
