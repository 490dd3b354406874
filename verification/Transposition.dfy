/**
 * What the batch builder amounts to: the account-major parameters come out transposed, one
 * transaction per account for each nonce in turn, however the work was split and the nonces found.
 */
module Transposition {
  import opened Arithmetic
  import opened Scenario

  function Row(accounts: seq<string>, k: nat): (txs: seq<Tx>)
    ensures |txs| == |accounts|
    ensures forall i :: 0 <= i < |accounts| ==> txs[i] == Tx(accounts[i], k)
  {
    seq(|accounts|, i requires 0 <= i < |accounts| => Tx(accounts[i], k))
  }

  /** Nonce `f` for every account, then `f + 1` for every account, and so on, `count` times. */
  function Transposed(accounts: seq<string>, f: nat, count: nat): seq<Tx> {
    if count == 0 then [] else Transposed(accounts, f, count - 1) + Row(accounts, f + count - 1)
  }

  /** Entry `i` has the account `i mod m` and the nonce `f + i div m`. */
  lemma {:induction false} TransposedEntries(accounts: seq<string>, f: nat, count: nat)
    ensures |Transposed(accounts, f, count)| == count * |accounts|
    ensures accounts != [] ==> forall i :: 0 <= i < count * |accounts| ==>
      Transposed(accounts, f, count)[i] == Tx(accounts[i % |accounts|], f + i / |accounts|)
  {
    var m := |accounts|;
    if count > 0 {
      TransposedEntries(accounts, f, count - 1);
      var p := (count - 1) * m;
      assert count * m == p + m;
      if m > 0 {
        forall i | 0 <= i < p + m
          ensures Transposed(accounts, f, count)[i] == Tx(accounts[i % m], f + i / m)
        {
          if i >= p {
            DivModUnique(i, m, count - 1, i - p);
          }
        }
      }
    }
  }

  /** All of one account's transactions: as many as the nonces from `f` on, each nonce once. */
  ghost predicate Block(txs: seq<Tx>, account: string, f: nat, count: nat) {
    && |txs| == count
    && (forall i :: 0 <= i < count ==> txs[i].account == account && f <= txs[i].nonce < f + count)
    && (forall i, j :: 0 <= i < j < count ==> txs[i].nonce != txs[j].nonce)
  }

  /** The accounts' blocks one after the other, each in any internal order. */
  ghost predicate AccountMajor(txs: seq<Tx>, accounts: seq<string>, f: nat, count: nat)
    decreases |accounts|
  {
    if accounts == [] then txs == []
    else
      && |txs| >= count
      && AccountMajor(txs[..|txs| - count], accounts[..|accounts| - 1], f, count)
      && Block(txs[|txs| - count..], accounts[|accounts| - 1], f, count)
  }

  function Range(f: nat, count: nat): (s: set<nat>)
    ensures forall k: nat :: k in s <==> f <= k < f + count
    ensures |s| == count
  {
    if count == 0 then {} else Range(f, count - 1) + {f + count - 1}
  }

  ghost function NonceSet(txs: seq<Tx>): set<nat> {
    if txs == [] then {} else NonceSet(txs[..|txs| - 1]) + {txs[|txs| - 1].nonce}
  }

  lemma {:induction false} NonceSetMember(txs: seq<Tx>, k: nat) returns (i: nat)
    requires k in NonceSet(txs)
    ensures i < |txs| && txs[i].nonce == k
  {
    i := |txs| - 1;
    if txs[i].nonce != k {
      i := NonceSetMember(txs[..i], k);
    }
  }

  lemma {:induction false} NonceSetSize(txs: seq<Tx>, f: nat, count: nat)
    requires forall i, j :: 0 <= i < j < |txs| ==> txs[i].nonce != txs[j].nonce
    requires forall i :: 0 <= i < |txs| ==> f <= txs[i].nonce < f + count
    ensures |NonceSet(txs)| == |txs| && NonceSet(txs) <= Range(f, count)
  {
    if txs != [] {
      var n := |txs| - 1;
      NonceSetSize(txs[..n], f, count);
      if txs[n].nonce in NonceSet(txs[..n]) {
        var i := NonceSetMember(txs[..n], txs[n].nonce);
      }
      assert txs[n].nonce !in NonceSet(txs[..n]);
    }
  }

  /** A block has every one of its nonces: there are as many slots as nonces. */
  lemma {:induction false} BlockHasNonce(txs: seq<Tx>, account: string, f: nat, count: nat, k: nat) returns (i: nat)
    requires Block(txs, account, f, count) && f <= k < f + count
    ensures i < count && txs[i] == Tx(account, k)
  {
    NonceSetSize(txs, f, count);
    SubsetOfSameSize(NonceSet(txs), Range(f, count));
    i := NonceSetMember(txs, k);
  }

  lemma {:induction false} SubsetOfSameSize<T>(a: set<T>, b: set<T>)
    requires a <= b && |a| == |b|
    ensures a == b
  {
    assert b == a + (b - a);
    assert |b - a| == 0;
  }

  lemma {:induction false} OfNonceSingle(txs: seq<Tx>, i: nat)
    requires i < |txs| && forall j :: 0 <= j < |txs| && j != i ==> txs[j].nonce != txs[i].nonce
    ensures OfNonce(txs, txs[i].nonce) == [txs[i]]
  {
    var n := |txs| - 1;
    if i == n {
      OfNonceAbove(txs[..n], txs[i].nonce);
    } else {
      OfNonceSingle(txs[..n], i);
    }
  }

  lemma {:induction false} BlockOfNonce(txs: seq<Tx>, account: string, f: nat, count: nat, k: nat)
    requires Block(txs, account, f, count)
    ensures OfNonce(txs, k) == if f <= k < f + count then [Tx(account, k)] else []
  {
    if f <= k < f + count {
      var i := BlockHasNonce(txs, account, f, count, k);
      OfNonceSingle(txs, i);
    } else {
      OfNonceAbove(txs, k);
    }
  }

  lemma {:induction false} RowAppend(accounts: seq<string>, k: nat)
    requires accounts != []
    ensures Row(accounts, k) == Row(accounts[..|accounts| - 1], k) + [Tx(accounts[|accounts| - 1], k)]
  {
  }

  lemma {:induction false} AccountMajorOfNonce(txs: seq<Tx>, accounts: seq<string>, f: nat, count: nat, k: nat)
    requires AccountMajor(txs, accounts, f, count)
    ensures OfNonce(txs, k) == if f <= k < f + count then Row(accounts, k) else []
    decreases |accounts|
  {
    if accounts != [] {
      var m := |accounts| - 1;
      var head, tail := txs[..|txs| - count], txs[|txs| - count..];
      var before, own := OfNonce(head, k), OfNonce(tail, k);
      assert OfNonce(txs, k) == before + own by {
        assert txs == head + tail;
        OfNonceConcat(head, tail, k);
      }
      AccountMajorOfNonce(head, accounts[..m], f, count, k);
      BlockOfNonce(tail, accounts[m], f, count, k);
      RowAppend(accounts, k);
    }
  }

  lemma {:induction false} RowOfNonce(accounts: seq<string>, j: nat, k: nat)
    ensures OfNonce(Row(accounts, j), k) == if j == k then Row(accounts, k) else []
  {
    if accounts != [] {
      var m := |accounts| - 1;
      RowOfNonce(accounts[..m], j, k);
      assert Row(accounts, j)[..m] == Row(accounts[..m], j);
      assert Row(accounts, k) == Row(accounts[..m], k) + [Tx(accounts[m], k)];
    }
  }

  lemma {:induction false} RowAppended(before: seq<Tx>, accounts: seq<string>, j: nat, k: nat)
    requires j == k ==> OfNonce(before, k) == []
    ensures OfNonce(before + Row(accounts, j), k) == if j == k then Row(accounts, k) else OfNonce(before, k)
  {
    var own := OfNonce(before, k);
    RowOfNonce(accounts, j, k);
    OfNonceConcat(before, Row(accounts, j), k);
    if j == k {
      assert own + Row(accounts, k) == Row(accounts, k);
    } else {
      assert own + [] == own;
    }
  }

  lemma {:induction false} TransposedAscends(accounts: seq<string>, f: nat, count: nat)
    ensures Ascending(Transposed(accounts, f, count))
    ensures forall i :: 0 <= i < |Transposed(accounts, f, count)| ==>
      f <= Transposed(accounts, f, count)[i].nonce < f + count
  {
    if count > 0 {
      TransposedAscends(accounts, f, count - 1);
    }
  }

  /** Nonces that are not among the `count` ones do not occur. */
  lemma {:induction false} TransposedLacks(accounts: seq<string>, f: nat, count: nat, k: nat)
    requires k < f || k >= f + count
    ensures OfNonce(Transposed(accounts, f, count), k) == []
  {
    TransposedAscends(accounts, f, count);
    OfNonceAbove(Transposed(accounts, f, count), k);
  }

  /** The others occur once for each account. */
  lemma {:induction false} TransposedHas(accounts: seq<string>, f: nat, count: nat, k: nat)
    requires f <= k < f + count
    ensures OfNonce(Transposed(accounts, f, count), k) == Row(accounts, k)
    decreases count
  {
    if k == f + count - 1 {
      TransposedLacks(accounts, f, count - 1, k);
    } else {
      TransposedHas(accounts, f, count - 1, k);
    }
    RowAppended(Transposed(accounts, f, count - 1), accounts, f + count - 1, k);
  }

  /** Sorting any account-major list by nonce transposes it. */
  lemma {:induction false} SortTransposes(txs: seq<Tx>, accounts: seq<string>, f: nat, count: nat)
    requires AccountMajor(txs, accounts, f, count)
    ensures SortByNonce(txs) == Transposed(accounts, f, count)
  {
    TransposedAscends(accounts, f, count);
    SortIsStable(txs, f);
    forall k: nat ensures OfNonce(SortByNonce(txs), k) == OfNonce(Transposed(accounts, f, count), k) {
      SortIsStable(txs, k);
      AccountMajorOfNonce(txs, accounts, f, count, k);
      if f <= k < f + count {
        TransposedHas(accounts, f, count, k);
      } else {
        TransposedLacks(accounts, f, count, k);
      }
    }
    StableSortUnique(SortByNonce(txs), Transposed(accounts, f, count));
  }
}
