/**
 * The split of `n` items among `t` workers into the chunks `(i * n) / t .. ((i + 1) * n) / t`, used
 * to build transactions (src/scenario.rs) and to derive accounts (src/subxt_transaction.rs).
 */
module Chunks {
  import opened Arithmetic

  function Min(a: nat, b: nat): nat {
    if a <= b then a else b
  }

  /** Where chunk `i` begins. */
  function Bound(i: nat, n: nat, t: nat): nat
    requires t > 0
  {
    (i * n) / t
  }

  lemma {:induction false} DivSpan(x: nat, t: nat)
    requires t > 0
    ensures (x / t) * t <= x < (x / t) * t + t
  {
    assert x == (x / t) * t + x % t;
  }

  /** Neighbouring chunks meet, the first begins at 0 and the last ends at `n`. */
  lemma {:induction false} BoundEnds(n: nat, t: nat)
    requires t > 0
    ensures Bound(0, n, t) == 0 && Bound(t, n, t) == n
  {
    DivBetween(t * n, t, n);
    DivBetween(0, t, 0);
  }

  /** Every chunk has `n / t` items or one more; with no more chunks than items none is empty. */
  lemma {:induction false} ChunkSize(i: nat, n: nat, t: nat)
    requires t > 0
    ensures Bound(i + 1, n, t) - Bound(i, n, t) == n / t || Bound(i + 1, n, t) - Bound(i, n, t) == n / t + 1
    ensures t <= n ==> Bound(i, n, t) < Bound(i + 1, n, t)
  {
    assert (i + 1) * n == i * n + n;
    DivSpan(i * n, t);
    DivSpan((i + 1) * n, t);
    DivSpan(n, t);
    SumOfQuotients(i * n, n, t, Bound(i, n, t), n / t, Bound(i + 1, n, t));
  }

  /** The quotients `a` and `q` of two numbers add up to that of their sum, or one less. */
  lemma {:induction false} SumOfQuotients(x: nat, n: nat, t: nat, a: nat, q: nat, b: nat)
    requires t > 0 && a * t <= x < a * t + t && q * t <= n < q * t + t && b * t <= x + n < b * t + t
    ensures a + q <= b <= a + q + 1
    ensures t <= n ==> a < b
  {
    assert (a + q) * t == a * t + q * t && (b + 1) * t == b * t + t;
    MulCancel(a + q, b + 1, t);
    assert (a + q + 2) * t == a * t + q * t + 2 * t;
    MulCancel(b, a + q + 2, t);
    if t <= n {
      assert (a + 1) * t == a * t + t;
      MulCancel(a + 1, b + 1, t);
    }
  }

  lemma {:induction false} DivMono(x: nat, y: nat, t: nat)
    requires t > 0 && x <= y
    ensures x / t <= y / t
  {
    DivSpan(x, t);
    DivSpan(y, t);
    assert (y / t + 1) * t == (y / t) * t + t;
    MulCancel(x / t, y / t + 1, t);
  }

  lemma {:induction false} BoundMonotone(i: nat, j: nat, n: nat, t: nat)
    requires t > 0 && i <= j
    ensures Bound(i, n, t) <= Bound(j, n, t)
  {
    MulMono(i, j, n);
    DivMono(i * n, j * n, t);
  }

  /** The items of chunk `i`. */
  function Chunk<T>(xs: seq<T>, i: nat, t: nat): seq<T>
    requires i < t
  {
    BoundMonotone(i, i + 1, |xs|, t);
    BoundMonotone(i + 1, t, |xs|, t);
    BoundEnds(|xs|, t);
    xs[Bound(i, |xs|, t)..Bound(i + 1, |xs|, t)]
  }

  /** The first `k` chunks one after the other. */
  function Flattened<T>(xs: seq<T>, k: nat, t: nat): seq<T>
    requires k <= t
  {
    if k == 0 then [] else Flattened(xs, k - 1, t) + Chunk(xs, k - 1, t)
  }

  lemma {:induction false} FlattenedIsPrefix<T>(xs: seq<T>, k: nat, t: nat)
    requires k <= t && t > 0
    ensures Bound(k, |xs|, t) <= |xs| && Flattened(xs, k, t) == xs[..Bound(k, |xs|, t)]
  {
    BoundEnds(|xs|, t);
    BoundMonotone(k, t, |xs|, t);
    if k > 0 {
      FlattenedIsPrefix(xs, k - 1, t);
      BoundMonotone(k - 1, k, |xs|, t);
    }
  }

  /** The chunks put together are the whole list, for every length and every number of workers. */
  lemma {:induction false} ChunksTile<T>(xs: seq<T>, p: nat)
    requires p >= 1
    ensures Flattened(xs, Min(|xs|, p), Min(|xs|, p)) == xs
  {
    var t := Min(|xs|, p);
    if t > 0 {
      FlattenedIsPrefix(xs, t, t);
      BoundEnds(|xs|, t);
    }
  }
}
