/**
 * The batch is the same transposition whether the nonces are given or assigned by the shared
 * allocator under any interleaving of the building tasks.
 */
module Batches {
  import opened Wrappers
  import opened Decimals
  import opened Nonces
  import opened Scenario
  import opened Transposition

  function Repeat(a: string, count: nat): (names: seq<string>)
    ensures |names| == count && forall j :: 0 <= j < count ==> names[j] == a
  {
    seq(count, j => a)
  }

  /** The account of each parameter, in order. */
  function AccountMajorNames(accounts: seq<string>, count: nat): seq<string> {
    if accounts == [] then []
    else AccountMajorNames(accounts[..|accounts| - 1], count) + Repeat(accounts[|accounts| - 1], count)
  }

  lemma {:induction false} ParamsHaveNames(accounts: seq<string>, from: Option<nat>, count: nat)
    ensures var ps, names := AllParams(accounts, from, count), AccountMajorNames(accounts, count);
            && |ps| == |names|
            && (forall i :: 0 <= i < |ps| ==> ps[i].account == names[i] && (from.None? ==> ps[i].nonce.None?))
  {
    if accounts != [] {
      ParamsHaveNames(accounts[..|accounts| - 1], from, count);
    }
  }

  // ---- Nonces given by the scenario ----

  /** Parameters with a starting nonce build account-major blocks. */
  lemma {:induction false} GivenNonces(accounts: seq<string>, f: nat, count: nat, allotted: seq<nat>)
    requires |allotted| == |AllParams(accounts, Some(f), count)|
    ensures AccountMajor(BuildEach(AllParams(accounts, Some(f), count), allotted), accounts, f, count)
  {
    if accounts != [] {
      var m := |accounts| - 1;
      var ps := AllParams(accounts, Some(f), count);
      var n := |ps| - count;
      var txs := BuildEach(ps, allotted);
      assert ps[..n] == AllParams(accounts[..m], Some(f), count);
      GivenNonces(accounts[..m], f, count, allotted[..n]);
      assert txs[..n] == BuildEach(ps[..n], allotted[..n]);
      assert ps[n..] == AccountParams(accounts[m], Some(f), count);
      assert forall j :: 0 <= j < count ==> txs[n..][j] == Tx(accounts[m], f + j) by {
        forall j | 0 <= j < count ensures txs[n..][j] == Tx(accounts[m], f + j) {
          assert ps[n + j] == ps[n..][j];
        }
      }
    }
  }

  /** With a starting nonce, the batch is the transposition, whatever the allocator would say. */
  lemma {:induction false} GivenBatchIsTransposed(accounts: seq<string>, f: nat, count: nat, allotted: seq<nat>)
    requires |allotted| == |AllParams(accounts, Some(f), count)|
    ensures SortByNonce(BuildEach(AllParams(accounts, Some(f), count), allotted)) == Transposed(accounts, f, count)
  {
    GivenNonces(accounts, f, count, allotted);
    SortTransposes(BuildEach(AllParams(accounts, Some(f), count), allotted), accounts, f, count);
  }

  // ---- Nonces assigned by the allocator ----

  lemma {:induction false} ExecKeepsAccounts(x: Allocation, moves: seq<Move>)
    ensures var x' := NonceExec(x, moves);
            |x'.calls| == |x.calls| && forall i :: 0 <= i < |x.calls| ==> x'.calls[i].account == x.calls[i].account
    decreases |moves|
  {
    if moves != [] {
      ExecKeepsAccounts(NonceStep(x, moves[0]), moves[1..]);
    }
  }

  /** The chain answers every fetch for account `a` with the same nonce. */
  ghost predicate ChainSays(a: Account, f: nat, names: seq<Account>, moves: seq<Move>) {
    forall j :: 0 <= j < |moves| ==> Truthful(a, f, names, moves[j])
  }

  predicate Truthful(a: Account, f: nat, names: seq<Account>, mv: Move) {
    mv.Fetch? && mv.answer.Some? && mv.i < |names| && names[mv.i] == a ==> mv.answer.value == f
  }

  ghost predicate FetchesAre(a: Account, f: nat, x: Allocation) {
    && (forall i :: 0 <= i < |x.calls| && x.calls[i].account == a ==>
          x.calls[i].stage.HasNonce? && x.calls[i].stage.fetched ==> x.calls[i].stage.remote == f)
    && (forall p :: 0 <= p < |x.commits| && x.commits[p].account == a ==>
          x.commits[p].fetched ==> x.commits[p].remote == f)
  }

  ghost predicate NamedBy(x: Allocation, names: seq<Account>) {
    |x.calls| == |names| && forall i :: 0 <= i < |names| ==> x.calls[i].account == names[i]
  }

  lemma {:induction false} StepFetches(a: Account, f: nat, names: seq<Account>, x: Allocation, mv: Move)
    requires FetchesAre(a, f, x) && NamedBy(x, names) && Truthful(a, f, names, mv)
    ensures FetchesAre(a, f, NonceStep(x, mv)) && NamedBy(NonceStep(x, mv), names)
  {
  }

  lemma {:induction false} ExecFetches(a: Account, f: nat, names: seq<Account>, x: Allocation, moves: seq<Move>)
    requires FetchesAre(a, f, x) && NamedBy(x, names) && ChainSays(a, f, names, moves)
    ensures FetchesAre(a, f, NonceExec(x, moves))
    decreases |moves|
  {
    if moves != [] {
      assert Truthful(a, f, names, moves[0]);
      StepFetches(a, f, names, x, moves[0]);
      ExecFetches(a, f, names, NonceStep(x, moves[0]), moves[1..]);
    }
  }

  /** If the table was empty, the first nonce committed for an account is the chain's. */
  lemma {:induction false} FirstCommitIsChains(a: Account, f: nat, names: seq<Account>, moves: seq<Move>)
    requires ChainSays(a, f, names, moves)
    ensures var cs := CommitsOf(NonceExec(Fresh(map[], names), moves).commits, a);
            cs != [] ==> cs[0].nonce == f
  {
    var x := NonceExec(Fresh(map[], names), moves);
    InterleavedNonces(map[], names, moves, a);
    ExecFetches(a, f, names, Fresh(map[], names), moves);
    if CommitsOf(x.commits, a) != [] {
      var p := CommitsOfFrom(x.commits, a, 0);
      CommitsOfAreOf(x.commits, a, 0);
    }
  }

  lemma {:induction false} CommitsOfAreOf(commits: seq<Committed>, a: Account, q: nat)
    requires q < |CommitsOf(commits, a)|
    ensures CommitsOf(commits, a)[q].account == a
  {
    var n := |commits| - 1;
    if q < |CommitsOf(commits[..n], a)| {
      CommitsOfAreOf(commits[..n], a, q);
    }
  }

  lemma {:induction false} CommitsOfFrom(commits: seq<Committed>, a: Account, q: nat) returns (p: nat)
    requires q < |CommitsOf(commits, a)|
    ensures p < |commits| && commits[p] == CommitsOf(commits, a)[q]
  {
    var n := |commits| - 1;
    if q < |CommitsOf(commits[..n], a)| {
      p := CommitsOfFrom(commits[..n], a, q);
    } else {
      p := n;
    }
  }

  function CountName(names: seq<string>, a: string): nat {
    if names == [] then 0
    else CountName(names[..|names| - 1], a) + (if names[|names| - 1] == a then 1 else 0)
  }

  lemma {:induction false} CountNameRepeat(names: seq<string>, b: string, count: nat, a: string)
    ensures CountName(names + Repeat(b, count), a) == CountName(names, a) + (if a == b then count else 0)
  {
    if count == 0 {
      assert names + Repeat(b, count) == names;
    } else {
      CountNameRepeat(names, b, count - 1, a);
      assert (names + Repeat(b, count))[..|names| + count - 1] == names + Repeat(b, count - 1);
    }
  }

  ghost predicate DistinctNames(accounts: seq<string>) {
    forall i, j :: 0 <= i < j < |accounts| ==> accounts[i] != accounts[j]
  }

  lemma {:induction false} NumberedAreDistinct(first: nat, count: nat)
    ensures DistinctNames(NumberedAccounts(first, count))
  {
    var accounts := NumberedAccounts(first, count);
    forall i, j | 0 <= i < j < count ensures accounts[i] != accounts[j] {
      if accounts[i] == accounts[j] {
        DecimalInjective(first + i, first + j);
      }
    }
  }

  lemma {:induction false} NamesOccur(accounts: seq<string>, count: nat, a: string)
    requires DistinctNames(accounts)
    ensures CountName(AccountMajorNames(accounts, count), a) == if a in accounts then count else 0
    ensures forall i :: 0 <= i < |AccountMajorNames(accounts, count)| ==>
         AccountMajorNames(accounts, count)[i] in accounts
  {
    if accounts != [] {
      var m := |accounts| - 1;
      NamesOccur(accounts[..m], count, a);
      CountNameRepeat(AccountMajorNames(accounts[..m], count), accounts[m], count, a);
      assert accounts == accounts[..m] + [accounts[m]];
    }
  }

  lemma {:induction false} AllReturnedCount(calls: seq<Call>, names: seq<string>, a: string)
    requires |calls| == |names|
    requires forall i :: 0 <= i < |calls| ==> calls[i].account == names[i] && calls[i].stage.Returned?
    ensures CountReturned(calls, a) == CountName(names, a)
  {
    if calls != [] {
      AllReturnedCount(calls[..|calls| - 1], names[..|names| - 1], a);
    }
  }

  /** Position by position knowledge is enough for account-major order. */
  lemma {:induction false} PointwiseIsMajor(txs: seq<Tx>, accounts: seq<string>, f: nat, count: nat)
    requires |txs| == |AccountMajorNames(accounts, count)|
    requires forall i :: 0 <= i < |txs| ==>
      txs[i].account == AccountMajorNames(accounts, count)[i] && f <= txs[i].nonce < f + count
    requires forall i, j :: 0 <= i < j < |txs| && txs[i].account == txs[j].account ==> txs[i].nonce != txs[j].nonce
    ensures AccountMajor(txs, accounts, f, count)
    decreases |accounts|
  {
    if accounts != [] {
      var m := |accounts| - 1;
      var n := |txs| - count;
      var names := AccountMajorNames(accounts, count);
      assert names[..n] == AccountMajorNames(accounts[..m], count);
      PointwiseIsMajor(txs[..n], accounts[..m], f, count);
      OwnBlock(txs, names, n, accounts[m], f, count);
    }
  }

  lemma {:induction false} OwnBlock(txs: seq<Tx>, names: seq<string>, n: nat, account: string, f: nat, count: nat)
    requires |txs| == |names| == n + count && names[n..] == Repeat(account, count)
    requires forall i :: 0 <= i < |txs| ==> txs[i].account == names[i] && f <= txs[i].nonce < f + count
    requires forall i, j :: 0 <= i < j < |txs| && txs[i].account == txs[j].account ==> txs[i].nonce != txs[j].nonce
    ensures Block(txs[n..], account, f, count)
  {
    forall i | 0 <= i < count ensures txs[n..][i].account == account && f <= txs[n..][i].nonce < f + count {
      assert names[n + i] == names[n..][i];
    }
  }

  function NoncesOf(calls: seq<Call>): (ns: seq<nat>)
    requires forall i :: 0 <= i < |calls| ==> calls[i].stage.Returned?
    ensures |ns| == |calls|
    ensures forall i :: 0 <= i < |calls| ==> ns[i] == calls[i].stage.nonce
  {
    seq(|calls|, i requires 0 <= i < |calls| => calls[i].stage.nonce)
  }

  /** The chain says `f` for every account. */
  ghost predicate ChainSaysAll(f: nat, names: seq<Account>, moves: seq<Move>) {
    forall a :: a in names ==> ChainSays(a, f, names, moves)
  }

  /** One call's nonce lies among the `count` nonces from the chain's on. */
  lemma {:induction false} AllocatedRange(accounts: seq<string>, f: nat, count: nat, moves: seq<Move>, i: nat)
    requires DistinctNames(accounts) && ChainSaysAll(f, AccountMajorNames(accounts, count), moves)
    requires var x := NonceExec(Fresh(map[], AccountMajorNames(accounts, count)), moves);
             i < |x.calls| && forall j :: 0 <= j < |x.calls| ==> x.calls[j].stage.Returned?
    ensures var x := NonceExec(Fresh(map[], AccountMajorNames(accounts, count)), moves);
            f <= x.calls[i].stage.nonce < f + count
  {
    var names := AccountMajorNames(accounts, count);
    var x0 := Fresh(map[], names);
    var x := NonceExec(x0, moves);
    var a := x.calls[i].account;
    ExecKeepsAccounts(x0, moves);
    assert a == names[i];
    NamesOccur(accounts, count, a);
    AllReturnedCount(x.calls, names, a);
    InterleavedRange(map[], names, moves, i);
    FirstCommitIsChains(a, f, names, moves);
  }

  /**
   * Without a starting nonce, however the calls of the building tasks interleave: if the table was
   * empty, the chain says `f` for every account and all calls have returned, the batch is the same
   * transposition.
   */
  lemma {:induction false} AllocatedBatchIsTransposed(accounts: seq<string>, f: nat, count: nat, moves: seq<Move>)
    requires DistinctNames(accounts) && ChainSaysAll(f, AccountMajorNames(accounts, count), moves)
    requires var x := NonceExec(Fresh(map[], AccountMajorNames(accounts, count)), moves);
             forall i :: 0 <= i < |x.calls| ==> x.calls[i].stage.Returned?
    ensures var x := NonceExec(Fresh(map[], AccountMajorNames(accounts, count)), moves);
            var params := AllParams(accounts, None, count);
            |x.calls| == |params| && SortByNonce(BuildEach(params, NoncesOf(x.calls))) == Transposed(accounts, f, count)
  {
    var names := AccountMajorNames(accounts, count);
    var params := AllParams(accounts, None, count);
    var x := NonceExec(Fresh(map[], names), moves);
    ExecKeepsAccounts(Fresh(map[], names), moves);
    ParamsHaveNames(accounts, None, count);
    var txs := BuildEach(params, NoncesOf(x.calls));
    forall i | 0 <= i < |txs| ensures txs[i].account == names[i] && f <= txs[i].nonce < f + count {
      AllocatedRange(accounts, f, count, moves, i);
    }
    forall i, j | 0 <= i < j < |txs| && txs[i].account == txs[j].account ensures txs[i].nonce != txs[j].nonce {
      InterleavedDistinct(map[], names, moves, i, j);
    }
    PointwiseIsMajor(txs, accounts, f, count);
    SortTransposes(txs, accounts, f, count);
  }
}
