/**
 * The batch builder (build_transactions in src/scenario.rs): parameters account by account, built
 * in parallel chunks, put together and stably sorted by nonce.
 */
module Scenario {
  import opened Wrappers
  import opened Decimals
  import opened Chunks

  /** The settings of a scenario that decide which transactions are built. */
  datatype Settings = Settings(
    startId: Option<nat>,
    lastId: Option<nat>,
    accountId: Option<string>,
    nonceFrom: Option<nat>,
    txsCount: nat)

  datatype BuildParams = BuildParams(account: string, nonce: Option<nat>)

  /** A built transaction, as far as the order of the batch goes. */
  datatype Tx = Tx(account: string, nonce: nat)

  // ---- Parameters ----

  /** The first and last account number; a missing last one is the first. */
  function LastId(s: Settings): nat
    requires s.startId.Some?
  {
    if s.lastId.Some? then s.lastId.value else s.startId.value
  }

  function NumberedAccounts(first: nat, count: nat): (accounts: seq<string>)
    ensures |accounts| == count
    ensures forall i :: 0 <= i < count ==> accounts[i] == Decimal(first + i)
  {
    seq(count, i requires 0 <= i < count => Decimal(first + i))
  }

  /** The accounts of a scenario; `None` when none is configured, where the code panics. */
  function Accounts(s: Settings): Option<seq<string>> {
    if s.startId.Some? then
      var count := if LastId(s) < s.startId.value then 0 else LastId(s) - s.startId.value + 1;
      Some(NumberedAccounts(s.startId.value, count))
    else if s.accountId.Some? then Some([s.accountId.value])
    else None
  }

  /** Every account of a numbered scenario is a number of its range; an account id is the only account
      of its scenario. */
  lemma {:induction false} AccountsOfRange(s: Settings, a: string) returns (j: nat)
    requires Accounts(s).Some? && a in Accounts(s).value
    ensures s.startId.Some? ==> s.startId.value <= j <= LastId(s) && a == Decimal(j)
    ensures s.startId.None? ==> s.accountId == Some(a)
  {
    var accounts := Accounts(s).value;
    var i :| 0 <= i < |accounts| && accounts[i] == a;
    j := if s.startId.Some? then s.startId.value + i else 0;
  }

  /** A numbered scenario has the accounts from its first number to its last one, both included, and
      no other number. */
  lemma {:induction false} NumberInRange(s: Settings, j: nat)
    requires s.startId.Some?
    ensures Decimal(j) in Accounts(s).value <==> s.startId.value <= j <= LastId(s)
  {
    var accounts, first := Accounts(s).value, s.startId.value;
    if Decimal(j) in accounts {
      var i := AccountsOfRange(s, Decimal(j));
      DecimalInjective(j, i);
    }
    if first <= j <= LastId(s) {
      assert accounts[j - first] == Decimal(j);
    }
  }

  function NthNonce(from: Option<nat>, j: nat): Option<nat> {
    if from.Some? then Some(from.value + j) else None
  }

  function AccountParams(account: string, from: Option<nat>, count: nat): (ps: seq<BuildParams>)
    ensures |ps| == count
    ensures forall j :: 0 <= j < count ==> ps[j] == BuildParams(account, NthNonce(from, j))
  {
    seq(count, j requires 0 <= j < count => BuildParams(account, NthNonce(from, j)))
  }

  function AllParams(accounts: seq<string>, from: Option<nat>, count: nat): seq<BuildParams> {
    if accounts == [] then []
    else AllParams(accounts[..|accounts| - 1], from, count) + AccountParams(accounts[|accounts| - 1], from, count)
  }

  /** The parameters of one account, with a running nonce. */
  method PushAccount(params: seq<BuildParams>, account: string, from: Option<nat>, count: nat)
    returns (all: seq<BuildParams>)
    ensures all == params + AccountParams(account, from, count)
  {
    all := params;
    var nonce := from;
    var j := 0;
    while j < count
      invariant 0 <= j <= count
      invariant nonce == NthNonce(from, j)
      invariant all == params + AccountParams(account, from, count)[..j]
    {
      all := all + [BuildParams(account, nonce)];
      nonce := if nonce.Some? then Some(nonce.value + 1) else None;
      j := j + 1;
    }
  }

  method BuildAllParams(s: Settings) returns (params: Option<seq<BuildParams>>)
    ensures match Accounts(s)
            case None => params == None
            case Some(accounts) => params == Some(AllParams(accounts, s.nonceFrom, s.txsCount))
  {
    if s.startId.Some? {
      ghost var accounts := Accounts(s).value;
      var start, last := s.startId.value, LastId(s);
      var all: seq<BuildParams> := [];
      var account := start;
      while account <= last
        invariant start <= account && (account <= last + 1 || account == start)
        invariant account - start <= |accounts|
        invariant all == AllParams(accounts[..account - start], s.nonceFrom, s.txsCount)
        decreases last + 1 - account
      {
        var k := account - start;
        assert accounts[..k + 1][..k] == accounts[..k];
        all := PushAccount(all, Decimal(account), s.nonceFrom, s.txsCount);
        account := account + 1;
      }
      assert accounts[..account - start] == accounts;
      params := Some(all);
    } else if s.accountId.Some? {
      var all := PushAccount([], s.accountId.value, s.nonceFrom, s.txsCount);
      assert [s.accountId.value][..0] == [];
      params := Some(all);
    } else {
      params := None;
    }
  }

  // ---- Building ----

  /** The nonce of a built transaction: the given one, or the one the allocator allotted. */
  function Build(p: BuildParams, allotted: nat): Tx {
    Tx(p.account, if p.nonce.Some? then p.nonce.value else allotted)
  }

  function BuildEach(params: seq<BuildParams>, allotted: seq<nat>): (txs: seq<Tx>)
    requires |allotted| == |params|
    ensures |txs| == |params|
    ensures forall i :: 0 <= i < |params| ==> txs[i] == Build(params[i], allotted[i])
  {
    seq(|params|, i requires 0 <= i < |params| => Build(params[i], allotted[i]))
  }

  /** One spawned task: builds its chunk in order. */
  method BuildChunk(params: seq<BuildParams>, allotted: seq<nat>, k: nat, t: nat) returns (txs: seq<Tx>)
    requires |allotted| == |params| && k < t
    ensures txs == Chunk(BuildEach(params, allotted), k, t)
  {
    ghost var all := BuildEach(params, allotted);
    BoundMonotone(k, k + 1, |params|, t);
    BoundMonotone(k + 1, t, |params|, t);
    BoundEnds(|params|, t);
    var lo, hi := Bound(k, |params|, t), Bound(k + 1, |params|, t);
    txs := [];
    var i := lo;
    while i < hi
      invariant lo <= i <= hi
      invariant txs == all[lo..i]
    {
      txs := txs + [Build(params[i], allotted[i])];
      i := i + 1;
    }
  }

  /**
   * Builds the whole batch on up to `parallelism` tasks. `allotted[i]` is the nonce the allocator
   * gave to transaction `i`; it is only used if the parameters name none.
   */
  method BuildTransactions(params: seq<BuildParams>, allotted: seq<nat>, parallelism: nat) returns (txs: seq<Tx>)
    requires |allotted| == |params| && parallelism >= 1
    ensures txs == SortByNonce(BuildEach(params, allotted))
  {
    ghost var all := BuildEach(params, allotted);
    var t := Min(|params|, parallelism);
    var results: seq<Tx> := [];
    var k := 0;
    while k < t
      invariant 0 <= k <= t
      invariant results == Flattened(all, k, t)
    {
      var chunk := BuildChunk(params, allotted, k, t);
      results := results + chunk;
      k := k + 1;
    }
    ChunksTile(all, parallelism);
    txs := SortByNonce(results);
  }

  // ---- The stable sort ----

  /** Puts `x` behind everything that does not have a larger nonce. */
  function InsertByNonce(sorted: seq<Tx>, x: Tx): seq<Tx> {
    if sorted == [] || sorted[|sorted| - 1].nonce <= x.nonce then sorted + [x]
    else InsertByNonce(sorted[..|sorted| - 1], x) + [sorted[|sorted| - 1]]
  }

  function SortByNonce(xs: seq<Tx>): seq<Tx> {
    if xs == [] then [] else InsertByNonce(SortByNonce(xs[..|xs| - 1]), xs[|xs| - 1])
  }

  ghost predicate Ascending(xs: seq<Tx>) {
    forall i, j :: 0 <= i < j < |xs| ==> xs[i].nonce <= xs[j].nonce
  }

  /** The transactions of one nonce, in their order. */
  function OfNonce(xs: seq<Tx>, k: nat): seq<Tx> {
    if xs == [] then []
    else OfNonce(xs[..|xs| - 1], k) + (if xs[|xs| - 1].nonce == k then [xs[|xs| - 1]] else [])
  }

  lemma {:induction false} OfNonceAppend(xs: seq<Tx>, x: Tx, k: nat)
    ensures OfNonce(xs + [x], k) == OfNonce(xs, k) + (if x.nonce == k then [x] else [])
  {
    assert (xs + [x])[..|xs|] == xs;
  }

  lemma {:induction false} OfNonceConcat(xs: seq<Tx>, ys: seq<Tx>, k: nat)
    ensures OfNonce(xs + ys, k) == OfNonce(xs, k) + OfNonce(ys, k)
  {
    if ys == [] {
      assert xs + ys == xs;
    } else {
      var n := |ys| - 1;
      assert (xs + ys)[..|xs + ys| - 1] == xs + ys[..n];
      OfNonceConcat(xs, ys[..n], k);
    }
  }

  lemma {:induction false} OfNonceAbove(xs: seq<Tx>, k: nat)
    requires forall i :: 0 <= i < |xs| ==> xs[i].nonce != k
    ensures OfNonce(xs, k) == []
  {
    if xs != [] {
      OfNonceAbove(xs[..|xs| - 1], k);
    }
  }

  lemma {:induction false} InsertAscends(sorted: seq<Tx>, x: Tx)
    requires Ascending(sorted)
    ensures Ascending(InsertByNonce(sorted, x))
    ensures forall i :: 0 <= i < |InsertByNonce(sorted, x)| ==>
      InsertByNonce(sorted, x)[i].nonce <= x.nonce
      || (sorted != [] && InsertByNonce(sorted, x)[i].nonce <= sorted[|sorted| - 1].nonce)
  {
    if sorted != [] && sorted[|sorted| - 1].nonce > x.nonce {
      InsertAscends(sorted[..|sorted| - 1], x);
    }
  }

  lemma {:induction false} InsertKeepsOrder(sorted: seq<Tx>, x: Tx, k: nat)
    ensures OfNonce(InsertByNonce(sorted, x), k) == OfNonce(sorted, k) + (if x.nonce == k then [x] else [])
  {
    if sorted == [] || sorted[|sorted| - 1].nonce <= x.nonce {
      OfNonceAppend(sorted, x, k);
    } else {
      var n := |sorted| - 1;
      var last := sorted[n];
      InsertKeepsOrder(sorted[..n], x, k);
      OfNonceAppend(InsertByNonce(sorted[..n], x), last, k);
      var before := OfNonce(sorted[..n], k);
      if x.nonce == k {
        assert OfNonce(sorted, k) == before;
      } else {
        assert before + [] == before && OfNonce(sorted, k) + [] == OfNonce(sorted, k);
      }
    }
  }

  /** The sort orders by nonce and keeps the order of equal nonces. */
  lemma {:induction false} SortIsStable(xs: seq<Tx>, k: nat)
    ensures Ascending(SortByNonce(xs)) && OfNonce(SortByNonce(xs), k) == OfNonce(xs, k)
  {
    if xs != [] {
      var n := |xs| - 1;
      SortIsStable(xs[..n], k);
      InsertAscends(SortByNonce(xs[..n]), xs[n]);
      InsertKeepsOrder(SortByNonce(xs[..n]), xs[n], k);
    }
  }

  lemma {:induction false} OfNonceLast(xs: seq<Tx>, k: nat)
    requires OfNonce(xs, k) != []
    ensures exists i :: 0 <= i < |xs| && xs[i].nonce == k
  {
    if xs[|xs| - 1].nonce != k {
      OfNonceLast(xs[..|xs| - 1], k);
      var i :| 0 <= i < |xs| - 1 && xs[..|xs| - 1][i].nonce == k;
      assert xs[i].nonce == k;
    }
  }

  /** Two ascending lists that agree nonce by nonce are the same: there is only one stable sort. */
  lemma {:induction false} StableSortUnique(xs: seq<Tx>, ys: seq<Tx>)
    requires Ascending(xs) && Ascending(ys)
    requires forall k: nat :: OfNonce(xs, k) == OfNonce(ys, k)
    ensures xs == ys
  {
    if xs == [] {
      var k := if ys == [] then 0 else ys[|ys| - 1].nonce;
      assert OfNonce(xs, k) == OfNonce(ys, k);
    } else {
      var x := xs[|xs| - 1];
      assert OfNonce(ys, x.nonce) == OfNonce(xs, x.nonce);
      OfNonceLast(ys, x.nonce);
      var y := ys[|ys| - 1];
      assert OfNonce(xs, y.nonce) == OfNonce(ys, y.nonce);
      OfNonceLast(xs, y.nonce);
      assert x.nonce == y.nonce;
      var xs', ys' := xs[..|xs| - 1], ys[..|ys| - 1];
      assert OfNonce(xs, x.nonce) == OfNonce(xs', x.nonce) + [x];
      assert OfNonce(ys, x.nonce) == OfNonce(ys', x.nonce) + [y];
      forall k: nat ensures OfNonce(xs', k) == OfNonce(ys', k) {
        assert OfNonce(xs, k) == OfNonce(ys, k);
        if k == x.nonce {
          AppendCancels(OfNonce(xs', k), OfNonce(ys', k), x, y);
        } else {
          assert OfNonce(xs', k) + [] == OfNonce(xs', k) && OfNonce(ys', k) + [] == OfNonce(ys', k);
        }
      }
      AppendCancels(OfNonce(xs', x.nonce), OfNonce(ys', x.nonce), x, y);
      StableSortUnique(xs', ys');
      assert xs == xs' + [x] && ys == ys' + [y];
    }
  }

  lemma {:induction false} AppendCancels(us: seq<Tx>, vs: seq<Tx>, a: Tx, b: Tx)
    requires us + [a] == vs + [b]
    ensures us == vs && a == b
  {
    assert (us + [a])[|us|] == a;
    assert |us + [a]| == |vs + [b]|;
    assert us == (us + [a])[..|us|] && vs == (vs + [b])[..|vs|];
  }
}
