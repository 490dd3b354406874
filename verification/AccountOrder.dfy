/**
 * The order of one account's transactions in a built batch, whatever the chain said for each
 * account: they stand in the batch with consecutive nonces, from the account's own first one.
 */
module AccountOrder {
  import opened Wrappers
  import opened Nonces
  import opened Scenario
  import opened Batches

  /** The nonces of one account, in the order of the list. */
  function NoncesIn(txs: seq<Tx>, a: Account): seq<nat> {
    if txs == [] then []
    else
      var n := |txs| - 1;
      NoncesIn(txs[..n], a) + (if txs[n].account == a then [txs[n].nonce] else [])
  }

  /** `f`, `f + 1`, `f + 2`, and so on. */
  function Consecutive(f: nat, n: nat): (ns: seq<nat>)
    ensures |ns| == n && forall i :: 0 <= i < n ==> ns[i] == f + i
  {
    seq(n, i requires 0 <= i => f + i)
  }

  // ---- Sorting moves transactions, it does not change them ----

  function Copies(txs: seq<Tx>, t: Tx): nat {
    if txs == [] then 0
    else Copies(txs[..|txs| - 1], t) + (if txs[|txs| - 1] == t then 1 else 0)
  }

  lemma {:induction false} CopiesAppend(txs: seq<Tx>, x: Tx, t: Tx)
    ensures Copies(txs + [x], t) == Copies(txs, t) + (if x == t then 1 else 0)
  {
    assert (txs + [x])[..|txs|] == txs;
  }

  lemma {:induction false} NoncesInAppend(txs: seq<Tx>, x: Tx, a: Account)
    ensures NoncesIn(txs + [x], a) == NoncesIn(txs, a) + (if x.account == a then [x.nonce] else [])
  {
    assert (txs + [x])[..|txs|] == txs;
  }

  lemma {:induction false} InsertKeepsCopies(sorted: seq<Tx>, x: Tx, t: Tx)
    ensures Copies(InsertByNonce(sorted, x), t) == Copies(sorted, t) + (if x == t then 1 else 0)
  {
    if sorted == [] || sorted[|sorted| - 1].nonce <= x.nonce {
      CopiesAppend(sorted, x, t);
    } else {
      var n := |sorted| - 1;
      InsertKeepsCopies(sorted[..n], x, t);
      CopiesAppend(InsertByNonce(sorted[..n], x), sorted[n], t);
    }
  }

  lemma {:induction false} InsertKeepsNumber(sorted: seq<Tx>, x: Tx, a: Account)
    ensures |NoncesIn(InsertByNonce(sorted, x), a)| == |NoncesIn(sorted, a)| + (if x.account == a then 1 else 0)
  {
    if sorted == [] || sorted[|sorted| - 1].nonce <= x.nonce {
      NoncesInAppend(sorted, x, a);
    } else {
      var n := |sorted| - 1;
      InsertKeepsNumber(sorted[..n], x, a);
      NoncesInAppend(InsertByNonce(sorted[..n], x), sorted[n], a);
    }
  }

  /** The sorted list holds the same transactions, as often as before. */
  lemma {:induction false} SortKeepsCopies(xs: seq<Tx>, t: Tx)
    ensures Copies(SortByNonce(xs), t) == Copies(xs, t)
  {
    if xs != [] {
      var n := |xs| - 1;
      SortKeepsCopies(xs[..n], t);
      InsertKeepsCopies(SortByNonce(xs[..n]), xs[n], t);
    }
  }

  lemma {:induction false} SortKeepsNumber(xs: seq<Tx>, a: Account)
    ensures |NoncesIn(SortByNonce(xs), a)| == |NoncesIn(xs, a)|
  {
    if xs != [] {
      var n := |xs| - 1;
      SortKeepsNumber(xs[..n], a);
      InsertKeepsNumber(SortByNonce(xs[..n]), xs[n], a);
    }
  }

  lemma {:induction false} CopyAt(txs: seq<Tx>, i: nat)
    requires i < |txs|
    ensures Copies(txs, txs[i]) > 0
  {
    if i < |txs| - 1 {
      CopyAt(txs[..|txs| - 1], i);
    }
  }

  lemma {:induction false} NoCopies(txs: seq<Tx>, t: Tx)
    requires forall i :: 0 <= i < |txs| ==> txs[i] != t
    ensures Copies(txs, t) == 0
  {
    if txs != [] {
      NoCopies(txs[..|txs| - 1], t);
    }
  }

  lemma {:induction false} CopyIsAt(txs: seq<Tx>, t: Tx) returns (i: nat)
    requires Copies(txs, t) > 0
    ensures i < |txs| && txs[i] == t
  {
    i := |txs| - 1;
    if txs[i] != t {
      i := CopyIsAt(txs[..i], t);
    }
  }

  lemma {:induction false} NoncesInAreCopies(txs: seq<Tx>, a: Account, q: nat)
    requires q < |NoncesIn(txs, a)|
    ensures Copies(txs, Tx(a, NoncesIn(txs, a)[q])) > 0
  {
    var n := |txs| - 1;
    if q < |NoncesIn(txs[..n], a)| {
      NoncesInAreCopies(txs[..n], a, q);
    }
  }

  // ---- Consecutive nonces ----

  ghost predicate Rising(ns: seq<nat>) {
    forall i, j :: 0 <= i < j < |ns| ==> ns[i] < ns[j]
  }

  /** In an ascending list without repetitions an account's nonces rise. */
  lemma {:induction false} AscendingRises(txs: seq<Tx>, a: Account)
    requires Ascending(txs) && forall k: nat :: Copies(txs, Tx(a, k)) <= 1
    ensures Rising(NoncesIn(txs, a))
  {
    if txs != [] {
      var n := |txs| - 1;
      var before := txs[..n];
      forall k: nat ensures Copies(before, Tx(a, k)) <= 1 {
        assert Copies(txs, Tx(a, k)) <= 1;
      }
      AscendingRises(before, a);
      if txs[n].account == a {
        forall q | 0 <= q < |NoncesIn(before, a)| ensures NoncesIn(before, a)[q] < txs[n].nonce {
          var t := Tx(a, NoncesIn(before, a)[q]);
          NoncesInAreCopies(before, a, q);
          var i := CopyIsAt(before, t);
          assert txs[i] == t;
          assert Copies(txs, t) <= 1;
        }
      }
    }
  }

  /** As many rising numbers as there is room for leave no gap. */
  lemma {:induction false} RisingFills(ns: seq<nat>, g: nat)
    requires Rising(ns) && forall i :: 0 <= i < |ns| ==> g <= ns[i] < g + |ns|
    ensures ns == Consecutive(g, |ns|)
  {
    if ns != [] {
      var n := |ns| - 1;
      assert forall i :: 0 <= i < n ==> ns[..n][i] == ns[i] < ns[n];
      RisingFills(ns[..n], g);
      assert n > 0 ==> ns[n - 1] == ns[..n][n - 1] == g + n - 1;
      assert ns == ns[..n] + [ns[n]];
    }
  }

  /** The nonces of a front of the list are the front of the nonces. */
  lemma {:induction false} FrontOfNonces(txs: seq<Tx>, a: Account, p: nat)
    requires p <= |txs|
    ensures NoncesIn(txs[..p], a) <= NoncesIn(txs, a)
  {
    if p < |txs| {
      var n := |txs| - 1;
      FrontOfNonces(txs[..n], a, p);
      assert txs[..n][..p] == txs[..p];
    } else {
      assert txs[..p] == txs;
    }
  }

  // ---- Built batches ----

  /** The nonces of one account are distinct and lie in a range that has room for just them. */
  ghost predicate Snug(txs: seq<Tx>, a: Account, g: nat) {
    && (forall i :: 0 <= i < |txs| && txs[i].account == a ==> g <= txs[i].nonce < g + |NoncesIn(txs, a)|)
    && (forall i, j :: 0 <= i < j < |txs| && txs[i].account == a && txs[j].account == a ==>
         txs[i].nonce != txs[j].nonce)
  }

  lemma {:induction false} DistinctCopies(txs: seq<Tx>, a: Account, k: nat)
    requires forall i, j :: 0 <= i < j < |txs| && txs[i].account == a && txs[j].account == a ==>
         txs[i].nonce != txs[j].nonce
    ensures Copies(txs, Tx(a, k)) <= 1
  {
    if txs != [] {
      var n := |txs| - 1;
      DistinctCopies(txs[..n], a, k);
      if txs[n] == Tx(a, k) {
        NoCopies(txs[..n], Tx(a, k));
      }
    }
  }

  /** Sorting a snug list puts the account's nonces in consecutive order, seen from every front. */
  lemma {:induction false} SortedFront(txs: seq<Tx>, a: Account, g: nat, p: nat)
    requires Snug(txs, a, g) && p <= |SortByNonce(txs)|
    ensures var ns := NoncesIn(SortByNonce(txs)[..p], a); ns == Consecutive(g, |ns|)
  {
    var sorted := SortByNonce(txs);
    var ns := NoncesIn(sorted, a);
    SortIsStable(txs, 0);
    forall k: nat ensures Copies(sorted, Tx(a, k)) <= 1 {
      SortKeepsCopies(txs, Tx(a, k));
      DistinctCopies(txs, a, k);
    }
    AscendingRises(sorted, a);
    SortKeepsNumber(txs, a);
    forall q | 0 <= q < |ns| ensures g <= ns[q] < g + |ns| {
      NoncesInAreCopies(sorted, a, q);
      SortKeepsCopies(txs, Tx(a, ns[q]));
      var i := CopyIsAt(txs, Tx(a, ns[q]));
    }
    RisingFills(ns, g);
    FrontOfNonces(sorted, a, p);
  }

  lemma {:induction false} NamedNonces(txs: seq<Tx>, names: seq<string>, a: Account)
    requires |txs| == |names| && forall i :: 0 <= i < |txs| ==> txs[i].account == names[i]
    ensures |NoncesIn(txs, a)| == CountName(names, a)
  {
    if txs != [] {
      NamedNonces(txs[..|txs| - 1], names[..|names| - 1], a);
    }
  }

  /** The nonce an account's transactions begin with: its first committed one. */
  function FirstNonce(x: Allocation, a: Account): nat {
    if CommitsOf(x.commits, a) == [] then 0 else CommitsOf(x.commits, a)[0].nonce
  }

  /** What the allocator hands out is snug for every account. */
  lemma {:induction false} AllottedIsSnug(table: Table, names: seq<string>, moves: seq<Move>, txs: seq<Tx>, a: Account)
    requires var x := NonceExec(Fresh(table, names), moves);
             && |txs| == |names| == |x.calls|
             && forall i :: 0 <= i < |txs| ==>
                  x.calls[i].stage.Returned? && txs[i] == Tx(names[i], x.calls[i].stage.nonce)
    ensures Snug(txs, a, FirstNonce(NonceExec(Fresh(table, names), moves), a))
  {
    var x := NonceExec(Fresh(table, names), moves);
    ExecKeepsAccounts(Fresh(table, names), moves);
    NamedNonces(txs, names, a);
    AllReturnedCount(x.calls, names, a);
    forall i | 0 <= i < |txs| && txs[i].account == a
      ensures FirstNonce(x, a) <= txs[i].nonce < FirstNonce(x, a) + |NoncesIn(txs, a)|
    {
      InterleavedRange(table, names, moves, i);
    }
    forall i, j | 0 <= i < j < |txs| && txs[i].account == a && txs[j].account == a
      ensures txs[i].nonce != txs[j].nonce
    {
      InterleavedDistinct(table, names, moves, i, j);
    }
  }

  /**
   * However the calls of the building tasks interleave and whatever the chain answers each of them:
   * in every front of the sorted batch the nonces of an account are consecutive, from the first one
   * committed for it. Accounts need not agree on it.
   */
  lemma {:induction false} AllocatedFront(accounts: seq<string>, count: nat, moves: seq<Move>, a: Account, p: nat)
    requires var x := NonceExec(Fresh(map[], AccountMajorNames(accounts, count)), moves);
             forall i :: 0 <= i < |x.calls| ==> x.calls[i].stage.Returned?
    ensures var x := NonceExec(Fresh(map[], AccountMajorNames(accounts, count)), moves);
            var params := AllParams(accounts, None, count);
            && |x.calls| == |params|
            && var txs := SortByNonce(BuildEach(params, NoncesOf(x.calls)));
               p <= |txs| ==> var ns := NoncesIn(txs[..p], a); ns == Consecutive(FirstNonce(x, a), |ns|)
  {
    var names := AccountMajorNames(accounts, count);
    var params := AllParams(accounts, None, count);
    var x := NonceExec(Fresh(map[], names), moves);
    ExecKeepsAccounts(Fresh(map[], names), moves);
    ParamsHaveNames(accounts, None, count);
    var txs := BuildEach(params, NoncesOf(x.calls));
    AllottedIsSnug(map[], names, moves, txs, a);
    if p <= |SortByNonce(txs)| {
      SortedFront(txs, a, FirstNonce(x, a), p);
    }
  }
}
