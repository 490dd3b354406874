/**
 * The builder of fake transactions (FakeTransactionBuilder in src/transaction.rs). It ignores the
 * nonce it is given and allots nonces from zero, each call under one lock.
 */
module FakeBuilder {
  import opened Wrappers
  import opened Transactions
  import opened Decimals
  import opened NonceCalls
  import opened Nonces
  import opened Scenario
  import opened Transposition
  import opened Batches

  /** The metadata of a fake transaction: anything that is not a number is taken for alice. */
  function FakeMetadata(account: string): AccountMetadata {
    if Parse(account).Some? then Derived(Parse(account).value) else KeyRing("alice")
  }

  /** One call; the table is the one of the fake sink. `None` is the panic of the watched branch, which
      comes before the table is touched. */
  method BuildTransaction(table: NonceTable, watched: bool, account: string)
    returns (built: Option<(AccountMetadata, nat)>)
    modifies table
    ensures watched ==> built == None && table.nonces == old(table.nonces)
    ensures !watched ==> built.Some? && built.value.0 == FakeMetadata(account)
                         && (table.nonces, built.value.1) == Commit(old(table.nonces), account, 0)
    ensures !watched && Parse(account).Some? ==> built.value.0 == Derived(Parse(account).value)
    ensures !watched && Parse(account).None? ==> built.value.0 == KeyRing("alice")
  {
    if watched {
      return None;
    }
    var nonce := table.CommitNonce(account, 0);
    built := Some((FakeMetadata(account), nonce));
  }

  /** Calls under one lock each: nothing comes between the moves of one of them. */
  function LockedCalls(order: seq<nat>): seq<Move> {
    if order == [] then [] else WholeCall(order[0], Some(0)) + LockedCalls(order[1..])
  }

  lemma {:induction false} ExecConcat(x: Allocation, first: seq<Move>, rest: seq<Move>)
    ensures NonceExec(x, first + rest) == NonceExec(NonceExec(x, first), rest)
    decreases |first|
  {
    if first == [] {
      assert first + rest == rest;
    } else {
      assert (first + rest)[1..] == first[1..] + rest;
      ExecConcat(NonceStep(x, first[0]), first[1..], rest);
    }
  }

  /** Those three moves do what the locked section of the builder does. */
  lemma {:induction false} LockedCallCommits(x: Allocation, i: nat)
    requires i < |x.calls| && x.calls[i].stage.Started?
    ensures var x', (table, nonce) := NonceExec(x, WholeCall(i, Some(0))), Commit(x.table, x.calls[i].account, 0);
            && x'.table == table
            && x'.calls == x.calls[i := Call(x.calls[i].account, Returned(nonce))]
  {
    CallAlone(x, i, Some(0));
  }

  /** No call is halfway through. */
  ghost predicate Quiescent(x: Allocation) {
    forall j :: 0 <= j < |x.calls| ==> x.calls[j].stage.Started? || x.calls[j].stage.Returned?
  }

  lemma {:induction false} LockedCallReturns(x: Allocation, i: nat)
    requires Quiescent(x)
    ensures var x' := NonceExec(x, WholeCall(i, Some(0)));
            && Quiescent(x') && |x'.calls| == |x.calls|
            && (i < |x.calls| ==> x'.calls[i].stage.Returned?)
            && (forall j :: 0 <= j < |x.calls| && x.calls[j].stage.Returned? ==> x'.calls[j].stage.Returned?)
  {
    if i < |x.calls| && x.calls[i].stage.Started? {
      LockedCallCommits(x, i);
    } else {
      ExecWholeCall(x, i, Some(0));
    }
  }

  lemma {:induction false} LockedCallsReturn(x: Allocation, order: seq<nat>)
    requires Quiescent(x)
    ensures var x' := NonceExec(x, LockedCalls(order));
            && |x'.calls| == |x.calls|
            && (forall j :: 0 <= j < |x.calls| && (j in order || x.calls[j].stage.Returned?) ==>
                 x'.calls[j].stage.Returned?)
    decreases |order|
  {
    if order != [] {
      ExecConcat(x, WholeCall(order[0], Some(0)), LockedCalls(order[1..]));
      LockedCallReturns(x, order[0]);
      LockedCallsReturn(NonceExec(x, WholeCall(order[0], Some(0))), order[1..]);
      assert order == [order[0]] + order[1..];
    }
  }

  lemma {:induction false} LockedCallsSayZero(order: seq<nat>, a: Account, names: seq<Account>)
    ensures ChainSays(a, 0, names, LockedCalls(order))
  {
    if order != [] {
      LockedCallsSayZero(order[1..], a, names);
    }
  }

  /**
   * In whatever order the building tasks get the lock, a batch of numbered accounts has as entry
   * `i` account `start + i mod m` and nonce `i div m`.
   */
  lemma {:induction false} FakeBatch(start: nat, m: nat, count: nat, order: seq<nat>)
    requires m > 0 && start + m <= U32_MAX + 1
    requires forall i :: 0 <= i < |AllParams(NumberedAccounts(start, m), None, count)| ==> i in order
    ensures var accounts := NumberedAccounts(start, m);
            var params := AllParams(accounts, None, count);
            var x := NonceExec(Fresh(map[], AccountMajorNames(accounts, count)), LockedCalls(order));
            && (forall i :: 0 <= i < |x.calls| ==> x.calls[i].stage.Returned?)
            && |x.calls| == |params|
            && var txs := SortByNonce(BuildEach(params, NoncesOf(x.calls)));
               && |txs| == count * m
               && forall i :: 0 <= i < count * m ==>
                    txs[i].nonce == i / m && FakeMetadata(txs[i].account) == Derived(start + i % m)
  {
    var accounts := NumberedAccounts(start, m);
    var x0 := Fresh(map[], AccountMajorNames(accounts, count));
    ParamsHaveNames(accounts, None, count);
    LockedCallsReturn(x0, order);
    var names := AccountMajorNames(accounts, count);
    forall a | a in names ensures ChainSays(a, 0, names, LockedCalls(order)) {
      LockedCallsSayZero(order, a, names);
    }
    NumberedAreDistinct(start, m);
    AllocatedBatchIsTransposed(accounts, 0, count, LockedCalls(order));
    FakeEntries(start, m, count);
  }

  lemma {:induction false} FakeEntries(start: nat, m: nat, count: nat)
    requires m > 0 && start + m <= U32_MAX + 1
    ensures var txs := Transposed(NumberedAccounts(start, m), 0, count);
            && |txs| == count * m
            && forall i :: 0 <= i < count * m ==>
                 txs[i].nonce == i / m && FakeMetadata(txs[i].account) == Derived(start + i % m)
  {
    var accounts := NumberedAccounts(start, m);
    TransposedEntries(accounts, 0, count);
    forall i | 0 <= i < count * m ensures FakeMetadata(accounts[i % m]) == Derived(start + i % m) {
      ParseDecimal(start + i % m);
    }
  }
}
