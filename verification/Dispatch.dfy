/**
 * From the settings of a scenario to the order in which its transactions leave: `build`
 * (src/scenario.rs) hands the sorted batch to the runner reversed, and the runner pops from the end.
 */
module Dispatch {
  import opened Arithmetic
  import opened Wrappers
  import opened Transactions
  import opened Decimals
  import Nonces
  import opened Scenario
  import opened Transposition
  import opened Batches
  import opened AccountOrder
  import opened DerivedAccounts
  import opened Scheduler

  function Reversed<T>(xs: seq<T>): (ys: seq<T>)
    ensures |ys| == |xs|
    ensures forall i :: 0 <= i < |xs| ==> ys[i] == xs[|xs| - 1 - i]
  {
    seq(|xs|, i requires 0 <= i < |xs| => xs[|xs| - 1 - i])
  }

  /** A runner given the reversed batch pops the batch from its front, whatever happens on the way. */
  lemma {:induction false} DispatchIsPrefix(batch: seq<Task>, threshold: nat, monitored: bool, ls: seq<Label>)
    ensures var s := Run(threshold, monitored, Reversed(batch), ls);
            |s.started| <= |batch| && s.started == batch[..|s.started|] && s.queue == Reversed(batch[|s.started|..])
  {
    RunDispatchesInOrder(threshold, monitored, Reversed(batch), ls);
    PoppedFromTheEnd(batch, Run(threshold, monitored, Reversed(batch), ls));
  }

  lemma {:induction false} PoppedFromTheEnd(batch: seq<Task>, s: State)
    requires InOrder(Reversed(batch), s)
    ensures |s.started| <= |batch| && s.started == batch[..|s.started|] && s.queue == Reversed(batch[|s.started|..])
  {
    var txs := Reversed(batch);
    forall j | 0 <= j < |s.started| ensures s.started[j] == batch[j] {
      assert s.started[j] == txs[|txs| - 1 - j];
    }
    forall j | 0 <= j < |s.queue| ensures s.queue[j] == Reversed(batch[|s.started|..])[j] {
      assert s.queue[j] == txs[j];
    }
  }

  // ---- Rounds ----

  /** Round after round, each one through the accounts in the same order. */
  ghost predicate InRounds(txs: seq<Tx>, accounts: seq<string>, f: nat) {
    && accounts != []
    && forall i :: 0 <= i < |txs| ==> txs[i] == Tx(accounts[i % |accounts|], f + i / |accounts|)
  }

  /** Account `k` of `m` has sent `c` of the first `p` transactions. */
  ghost predicate Share(p: nat, m: nat, k: nat, c: nat) {
    p <= c * m + k && (c > 0 ==> (c - 1) * m + k < p)
  }

  /** It is account `k`'s turn. */
  lemma {:induction false} ShareTakesTurn(p: nat, m: nat, k: nat, c: nat)
    requires k < m && Share(p, m, k, c) && p % m == k
    ensures p / m == c && Share(p + 1, m, k, c + 1)
  {
    var q := p / m;
    assert p == q * m + k;
    assert (c + 1) * m == c * m + m;
    MulCancel(q, c + 1, m);
    if c > 0 {
      MulCancel(c - 1, q, m);
    }
  }

  /** It is another account's turn. */
  lemma {:induction false} ShareWaits(p: nat, m: nat, k: nat, c: nat)
    requires k < m && Share(p, m, k, c) && p % m != k
    ensures Share(p + 1, m, k, c)
  {
    if p == c * m + k {
      DivModUnique(p, m, c, k);
    }
  }

  ghost predicate OnTurn(txs: seq<Tx>, a: string, m: nat, k: nat, f: nat) {
    var ns := NoncesIn(txs, a);
    ns == Consecutive(f, |ns|) && Share(|txs|, m, k, |ns|)
  }

  lemma {:induction false} TurnTaken(txs: seq<Tx>, x: Tx, a: string, m: nat, k: nat, f: nat)
    requires k < m && OnTurn(txs, a, m, k, f)
    requires x.nonce == f + |txs| / m && (x.account == a <==> |txs| % m == k)
    ensures OnTurn(txs + [x], a, m, k, f)
  {
    var ns := NoncesIn(txs, a);
    NoncesInAppend(txs, x, a);
    if |txs| % m == k {
      ShareTakesTurn(|txs|, m, k, |ns|);
      assert ns + [f + |ns|] == Consecutive(f, |ns| + 1);
    } else {
      ShareWaits(|txs|, m, k, |ns|);
    }
  }

  /** In rounds, each account's nonces are consecutive, and its share is fixed by the total. */
  lemma {:induction false} RoundsAreConsecutive(txs: seq<Tx>, accounts: seq<string>, f: nat, k: nat)
    requires InRounds(txs, accounts, f) && DistinctNames(accounts) && k < |accounts|
    ensures OnTurn(txs, accounts[k], |accounts|, k, f)
  {
    var m := |accounts|;
    if txs == [] {
      assert 0 * m == 0;
    } else {
      var n := |txs| - 1;
      RoundsAreConsecutive(txs[..n], accounts, f, k);
      assert n % m != k ==> accounts[n % m] != accounts[k];
      TurnTaken(txs[..n], txs[n], accounts[k], m, k, f);
      assert txs == txs[..n] + [txs[n]];
    }
  }

  /** No account is ever more than one transaction ahead of another. */
  lemma {:induction false} SharesAreEven(p: nat, m: nat, k: nat, c: nat, k': nat, c': nat)
    requires k < m && k' < m && Share(p, m, k, c) && Share(p, m, k', c')
    ensures c <= c' + 1
  {
    if c > 0 {
      assert (c' + 1) * m == c' * m + m;
      MulCancel(c - 1, c' + 1, m);
    }
  }

  // ---- From the settings ----

  /**
   * What building may return: with a starting nonce the allocator is not asked; without one, the
   * nonces come from concurrent calls under some interleaving `moves`, with any answers of the chain.
   */
  ghost predicate Built(s: Settings, moves: seq<Nonces.Move>, allotted: seq<nat>, txs: seq<Tx>)
    requires Accounts(s).Some?
  {
    var params := AllParams(Accounts(s).value, s.nonceFrom, s.txsCount);
    var x := Allotment(s, moves);
    && |allotted| == |params|
    && txs == SortByNonce(BuildEach(params, allotted))
    && (s.nonceFrom.None? ==>
          (forall i :: 0 <= i < |x.calls| ==> x.calls[i].stage.Returned?) && allotted == NoncesOf(x.calls))
  }

  /** The allocator after the moves of the building tasks. */
  function Allotment(s: Settings, moves: seq<Nonces.Move>): Nonces.Allocation
    requires Accounts(s).Some?
  {
    Nonces.NonceExec(Nonces.Fresh(map[], AccountMajorNames(Accounts(s).value, s.txsCount)), moves)
  }

  /** The nonce an account begins with: the configured one, or the first one committed for it. */
  function StartOf(s: Settings, moves: seq<Nonces.Move>, a: string): nat
    requires Accounts(s).Some?
  {
    if s.nonceFrom.Some? then s.nonceFrom.value else FirstNonce(Allotment(s, moves), a)
  }

  /** All accounts begin with nonce `f`. */
  ghost predicate CommonStart(s: Settings, moves: seq<Nonces.Move>, f: nat)
    requires Accounts(s).Some?
  {
    if s.nonceFrom.Some? then s.nonceFrom.value == f
    else ChainSaysAll(f, AccountMajorNames(Accounts(s).value, s.txsCount), moves)
  }

  /** Without a configured nonce, an account starts with what the chain says for it. */
  lemma {:induction false} StartIsChains(s: Settings, moves: seq<Nonces.Move>, allotted: seq<nat>, txs: seq<Tx>,
                                         k: nat, f: nat)
    requires Accounts(s).Some? && s.nonceFrom.None? && s.txsCount > 0 && k < |Accounts(s).value|
    requires Built(s, moves, allotted, txs)
    requires ChainSays(Accounts(s).value[k], f, AccountMajorNames(Accounts(s).value, s.txsCount), moves)
    ensures StartOf(s, moves, Accounts(s).value[k]) == f
  {
    var accounts := Accounts(s).value;
    var a, names := accounts[k], AccountMajorNames(accounts, s.txsCount);
    AccountsAreDistinct(s);
    Nonces.InterleavedNonces(map[], names, moves, a);
    ExecKeepsAccounts(Nonces.Fresh(map[], names), moves);
    NamesOccur(accounts, s.txsCount, a);
    AllReturnedCount(Allotment(s, moves).calls, names, a);
    FirstCommitIsChains(a, f, names, moves);
  }

  lemma {:induction false} AccountsAreDistinct(s: Settings)
    requires Accounts(s).Some?
    ensures DistinctNames(Accounts(s).value)
  {
    if s.startId.Some? {
      NumberedAreDistinct(s.startId.value, |Accounts(s).value|);
    }
  }

  /** If all accounts begin with the same nonce, what building may return is the transposition. */
  lemma {:induction false} BuiltIsTransposed(s: Settings, f: nat, moves: seq<Nonces.Move>, allotted: seq<nat>,
                                             txs: seq<Tx>)
    requires Accounts(s).Some? && Built(s, moves, allotted, txs) && CommonStart(s, moves, f)
    ensures txs == Transposed(Accounts(s).value, f, s.txsCount)
  {
    var accounts := Accounts(s).value;
    if s.nonceFrom.Some? {
      GivenBatchIsTransposed(accounts, f, s.txsCount, allotted);
    } else {
      AccountsAreDistinct(s);
      AllocatedBatchIsTransposed(accounts, f, s.txsCount, moves);
    }
  }

  lemma {:induction false} TransposedIsInRounds(accounts: seq<string>, f: nat, count: nat, p: nat)
    requires accounts != [] && p <= |Transposed(accounts, f, count)|
    ensures InRounds(Transposed(accounts, f, count)[..p], accounts, f)
  {
    TransposedEntries(accounts, f, count);
  }

  /** In every front of what building may return, an account's nonces are consecutive from its own
      start on, whether or not the accounts start alike. */
  lemma {:induction false} BuiltFront(s: Settings, moves: seq<Nonces.Move>, allotted: seq<nat>, txs: seq<Tx>, k: nat,
                                      p: nat)
    requires Accounts(s).Some? && Built(s, moves, allotted, txs) && k < |Accounts(s).value| && p <= |txs|
    ensures var a := Accounts(s).value[k];
            var ns := NoncesIn(txs[..p], a);
            ns == Consecutive(StartOf(s, moves, a), |ns|)
  {
    var accounts := Accounts(s).value;
    if s.nonceFrom.Some? {
      var f := s.nonceFrom.value;
      AccountsAreDistinct(s);
      BuiltIsTransposed(s, f, moves, allotted, txs);
      TransposedIsInRounds(accounts, f, s.txsCount, p);
      RoundsAreConsecutive(txs[..p], accounts, f, k);
    } else {
      AllocatedFront(accounts, s.txsCount, moves, accounts[k], p);
    }
  }

  /** Every built transaction is one of a configured account. */
  lemma {:induction false} BuiltAccounts(s: Settings, moves: seq<Nonces.Move>, allotted: seq<nat>, txs: seq<Tx>, i: nat)
    requires Accounts(s).Some? && Built(s, moves, allotted, txs) && i < |txs|
    ensures txs[i].account in Accounts(s).value
  {
    var params := AllParams(Accounts(s).value, s.nonceFrom, s.txsCount);
    CopyAt(txs, i);
    SortKeepsCopies(BuildEach(params, allotted), txs[i]);
    var j := CopyIsAt(BuildEach(params, allotted), txs[i]);
    AccountOfParam(Accounts(s).value, s.nonceFrom, s.txsCount, params[j]);
  }

  /** Every configured account has as many transactions as are asked for, and nobody else has any. */
  lemma {:induction false} BuiltPerAccount(s: Settings, moves: seq<Nonces.Move>, allotted: seq<nat>, txs: seq<Tx>,
                                           a: string)
    requires Accounts(s).Some? && Built(s, moves, allotted, txs)
    ensures |NoncesIn(txs, a)| == if a in Accounts(s).value then s.txsCount else 0
  {
    var accounts := Accounts(s).value;
    var params := AllParams(accounts, s.nonceFrom, s.txsCount);
    AccountsAreDistinct(s);
    ParamsHaveNames(accounts, s.nonceFrom, s.txsCount);
    NamedNonces(BuildEach(params, allotted), AccountMajorNames(accounts, s.txsCount), a);
    NamesOccur(accounts, s.txsCount, a);
    SortKeepsNumber(BuildEach(params, allotted), a);
  }

  /** For a range: each number from the first to the last has its transactions, no other one has any. */
  lemma {:induction false} BuiltPerNumber(s: Settings, moves: seq<Nonces.Move>, allotted: seq<nat>, txs: seq<Tx>,
                                          j: nat)
    requires s.startId.Some? && Built(s, moves, allotted, txs)
    ensures |NoncesIn(txs, Decimal(j))| == if s.startId.value <= j <= LastId(s) then s.txsCount else 0
  {
    BuiltPerAccount(s, moves, allotted, txs, Decimal(j));
    NumberInRange(s, j);
  }

  // ---- From transactions to tasks ----

  /** `task` is the transaction `tx`, made with the accounts of the sink. */
  predicate Carries(task: Task, tx: Tx, accounts: AccountMap) {
    tx.account in accounts && task.account == accounts[tx.account].1 && task.nonce == tx.nonce
  }

  ghost predicate AllCarry(tasks: seq<Task>, txs: seq<Tx>, accounts: AccountMap) {
    |tasks| == |txs| && forall i :: 0 <= i < |txs| ==> Carries(tasks[i], txs[i], accounts)
  }

  /** The nonces of one account's tasks, in order. */
  function NoncesFor(tasks: seq<Task>, a: AccountMetadata): seq<nat> {
    if tasks == [] then []
    else
      var n := |tasks| - 1;
      NoncesFor(tasks[..n], a) + (if tasks[n].account == a then [tasks[n].nonce] else [])
  }

  /** The metadata of the accounts, in the order of the accounts. */
  function Metadata(accounts: seq<string>, m: AccountMap): (metas: seq<AccountMetadata>)
    requires AllFound(accounts, m)
    ensures |metas| == |accounts|
    ensures forall i :: 0 <= i < |accounts| ==> metas[i] == m[accounts[i]].1
  {
    seq(|accounts|, i requires 0 <= i < |accounts| => m[accounts[i]].1)
  }

  lemma {:induction false} NumberedMetadata(seed: string, first: nat, count: nat)
    ensures var accounts, m := NumberedAccounts(first, count), Collect(NumberedPairs(seed, first, count));
            AllFound(accounts, m) && forall i :: 0 <= i < count ==> Metadata(accounts, m)[i] == Derived(first + i)
  {
    CollectNumbered(seed, first, count);
  }

  /** The accounts of a scenario are found under different metadata. */
  lemma {:induction false} MetadataIsDistinct(s: Settings, seed: string, m: AccountMap)
    requires Accounts(s).Some? && s.txsCount > 0 && LookupsSucceed(s, seed)
    requires s.startId.Some? ==> s.startId.value <= U32_MAX && LastId(s) <= U32_MAX
    requires DerivedMap(Describe(s).value, seed) == Some(m)
    ensures AllFound(Accounts(s).value, m) && Distinct(Metadata(Accounts(s).value, m))
  {
    LookupsAreByAccount(s, seed, m);
    if s.startId.Some? {
      NumberedLookups(s, seed);
      NumberedMetadataIsDistinct(s, seed, m);
    }
  }

  lemma {:induction false} NumberedMetadataIsDistinct(s: Settings, seed: string, m: AccountMap)
    requires s.startId.Some? && s.startId.value <= LastId(s) + 1 && LastId(s) < U32_MAX
    requires DerivedMap(Describe(s).value, seed) == Some(m) && AllFound(Accounts(s).value, m)
    ensures Distinct(Metadata(Accounts(s).value, m))
  {
    var start, last := s.startId.value, LastId(s);
    SuccOf(last);
    NumberedMetadata(seed, start, last + 1 - start);
  }

  /** Reading an account's nonces off the tasks or off the transactions is the same. */
  lemma {:induction false} CarriedNonces(tasks: seq<Task>, txs: seq<Tx>, accounts: seq<string>, m: AccountMap, k: nat)
    requires AllCarry(tasks, txs, m) && AllFound(accounts, m) && Distinct(Metadata(accounts, m)) && k < |accounts|
    requires forall i :: 0 <= i < |txs| ==> txs[i].account in accounts
    ensures NoncesFor(tasks, Metadata(accounts, m)[k]) == NoncesIn(txs, accounts[k])
    decreases |tasks|
  {
    if tasks != [] {
      var n := |tasks| - 1;
      CarriedNonces(tasks[..n], txs[..n], accounts, m, k);
      assert Carries(tasks[n], txs[n], m);
      var metas := Metadata(accounts, m);
      var j :| 0 <= j < |accounts| && accounts[j] == txs[n].account;
      assert tasks[n].account == metas[j];
      assert metas[j] == metas[k] ==> j == k;
    }
  }

  /** The nonces of account `k` among the tasks a runner has started when given the batch reversed. */
  lemma {:induction false} StartedNonces(
    s: Settings, seed: string, m: AccountMap, moves: seq<Nonces.Move>, allotted: seq<nat>, txs: seq<Tx>,
    tasks: seq<Task>, p: nat, k: nat)
    requires LookupsSucceed(s, seed) && s.txsCount > 0 && k < |Accounts(s).value|
    requires s.startId.Some? ==> s.startId.value <= U32_MAX && LastId(s) <= U32_MAX
    requires DerivedMap(Describe(s).value, seed) == Some(m)
    requires Built(s, moves, allotted, txs) && AllCarry(tasks, txs, m) && p <= |tasks|
    ensures AllFound(Accounts(s).value, m)
    ensures NoncesFor(tasks[..p], m[Accounts(s).value[k]].1) == NoncesIn(txs[..p], Accounts(s).value[k])
  {
    MetadataIsDistinct(s, seed, m);
    forall i | 0 <= i < p ensures txs[..p][i].account in Accounts(s).value {
      BuiltAccounts(s, moves, allotted, txs, i);
    }
    CarriedNonces(tasks[..p], txs[..p], Accounts(s).value, m, k);
  }

  /**
   * End to end: a scenario whose account lookups succeed, its nonces given or allotted under any
   * interleaving and with any answers of the chain, run by a runner with any threshold through any
   * sequence of events. At every point the started tasks are the front of the sorted batch, and the
   * ones of each account carry consecutive nonces from that account's own start on.
   */
  lemma {:induction false} ScenarioDispatch(
    s: Settings, seed: string, m: AccountMap, moves: seq<Nonces.Move>, allotted: seq<nat>, txs: seq<Tx>,
    tasks: seq<Task>, threshold: nat, monitored: bool, ls: seq<Label>, k: nat)
    requires LookupsSucceed(s, seed) && s.txsCount > 0 && k < |Accounts(s).value|
    requires s.startId.Some? ==> s.startId.value <= U32_MAX && LastId(s) <= U32_MAX
    requires DerivedMap(Describe(s).value, seed) == Some(m)
    requires Built(s, moves, allotted, txs) && AllCarry(tasks, txs, m)
    ensures var started := Run(threshold, monitored, Reversed(tasks), ls).started;
            && |started| <= |tasks| && started == tasks[..|started|]
            && AllFound(Accounts(s).value, m)
            && var a := Accounts(s).value[k];
               var ns := NoncesFor(started, m[a].1);
               ns == Consecutive(StartOf(s, moves, a), |ns|)
  {
    DispatchIsPrefix(tasks, threshold, monitored, ls);
    var p := |Run(threshold, monitored, Reversed(tasks), ls).started|;
    StartedNonces(s, seed, m, moves, allotted, txs, tasks, p, k);
    BuiltFront(s, moves, allotted, txs, k, p);
  }

  /**
   * If moreover all accounts start with the same nonce `f`, the accounts take turns: how many
   * transactions each of them has sent is fixed by the total, and no two differ by more than one.
   */
  lemma {:induction false} CommonStartDispatch(
    s: Settings, seed: string, m: AccountMap, f: nat, moves: seq<Nonces.Move>, allotted: seq<nat>,
    txs: seq<Tx>, tasks: seq<Task>, threshold: nat, monitored: bool, ls: seq<Label>, k: nat)
    requires LookupsSucceed(s, seed) && s.txsCount > 0 && k < |Accounts(s).value|
    requires s.startId.Some? ==> s.startId.value <= U32_MAX && LastId(s) <= U32_MAX
    requires DerivedMap(Describe(s).value, seed) == Some(m)
    requires Built(s, moves, allotted, txs) && CommonStart(s, moves, f) && AllCarry(tasks, txs, m)
    ensures var started := Run(threshold, monitored, Reversed(tasks), ls).started;
            && AllFound(Accounts(s).value, m)
            && var ns := NoncesFor(started, m[Accounts(s).value[k]].1);
               ns == Consecutive(f, |ns|) && Share(|started|, |Accounts(s).value|, k, |ns|)
  {
    var accounts := Accounts(s).value;
    DispatchIsPrefix(tasks, threshold, monitored, ls);
    var p := |Run(threshold, monitored, Reversed(tasks), ls).started|;
    StartedNonces(s, seed, m, moves, allotted, txs, tasks, p, k);
    AccountsAreDistinct(s);
    BuiltIsTransposed(s, f, moves, allotted, txs);
    TransposedIsInRounds(accounts, f, s.txsCount, p);
    RoundsAreConsecutive(txs[..p], accounts, f, k);
  }
}
