/**
 * Nonce assignment by many concurrent calls (check_account_nonce in src/subxt_transaction.rs). A
 * call reads the shared table, fetches the nonce from the chain if the table had none, and then
 * looks again under the write lock; other calls may run between these three steps.
 */
module Nonces {
  import opened Wrappers

  /** An account is known by the hex encoding of its id. */
  type Account = string

  type Table = map<Account, nat>

  /** What a call does while it holds the write lock. */
  function Commit(table: Table, a: Account, remote: nat): (Table, nat) {
    if a in table then (table[a := table[a] + 1], table[a] + 1) else (table[a := remote], remote)
  }

  /** The sink's table of nonces. */
  class NonceTable {
    var nonces: Table

    constructor ()
      ensures nonces == map[]
    {
      nonces := map[];
    }

    method ReadNonce(a: Account) returns (nonce: Option<nat>)
      ensures nonce == if a in nonces then Some(nonces[a]) else None
    {
      nonce := if a in nonces then Some(nonces[a]) else None;
    }

    method CommitNonce(a: Account, remote: nat) returns (nonce: nat)
      modifies this
      ensures (nonces, nonce) == Commit(old(nonces), a, remote)
    {
      if a in nonces {
        nonces := nonces[a := nonces[a] + 1];
        nonce := nonces[a];
      } else {
        nonces := nonces[a := remote];
        nonce := remote;
      }
    }

    /** A call that nothing interrupts; `fetched` is what the chain would answer, `None` an error. */
    method CheckAccountNonce(a: Account, fetched: Option<nat>) returns (nonce: Option<nat>)
      modifies this
      ensures match (if a in old(nonces) then Some(old(nonces)[a]) else fetched)
              case None => nonce == None && nonces == old(nonces)
              case Some(remote) => nonce.Some? && (nonces, nonce.value) == Commit(old(nonces), a, remote)
      ensures a in old(nonces) ==> nonce == Some(old(nonces)[a] + 1) && nonces == old(nonces)[a := old(nonces)[a] + 1]
      ensures a !in old(nonces) ==> nonce == fetched
      ensures a !in old(nonces) && fetched.Some? ==> nonces == old(nonces)[a := fetched.value]
    {
      var remote := ReadNonce(a);
      if remote.None? {
        remote := fetched;
      }
      if remote.None? {
        return None;
      }
      var n := CommitNonce(a, remote.value);
      nonce := Some(n);
    }
  }

  // ---- Interleaved calls ----

  /** `fetched`: the nonce to commit came from the chain and not from the table. */
  datatype Stage =
    | Started
    | HasRead(cached: Option<nat>)
    | HasNonce(remote: nat, fetched: bool)
    | Returned(nonce: nat)
    | Failed

  datatype Call = Call(account: Account, stage: Stage)

  datatype Committed = Committed(call: nat, account: Account, nonce: nat, remote: nat, fetched: bool)

  /** `commits` is the history of the locked sections. */
  datatype Allocation = Allocation(table: Table, calls: seq<Call>, commits: seq<Committed>)

  /** `Fetch` carries the chain's answer, which is not looked at if the table had the nonce. */
  datatype Move = Read(i: nat) | Fetch(i: nat, answer: Option<nat>) | Lock(i: nat)

  function SetStage(x: Allocation, i: nat, stage: Stage): Allocation
    requires i < |x.calls|
  {
    x.(calls := x.calls[i := Call(x.calls[i].account, stage)])
  }

  function NonceStep(x: Allocation, mv: Move): Allocation {
    if mv.i >= |x.calls| then x
    else
      var call := x.calls[mv.i];
      match (mv, call.stage)
      case (Read(i), Started) =>
        SetStage(x, i, HasRead(if call.account in x.table then Some(x.table[call.account]) else None))
      case (Fetch(i, answer), HasRead(cached)) =>
        if cached.Some? then SetStage(x, i, HasNonce(cached.value, false))
        else if answer.Some? then SetStage(x, i, HasNonce(answer.value, true))
        else SetStage(x, i, Failed)
      case (Lock(i), HasNonce(remote, fetched)) =>
        var (table, nonce) := Commit(x.table, call.account, remote);
        SetStage(x, i, Returned(nonce)).(
          table := table,
          commits := x.commits + [Committed(i, call.account, nonce, remote, fetched)])
      case _ => x
  }

  function NonceExec(x: Allocation, moves: seq<Move>): Allocation
    decreases |moves|
  {
    if moves == [] then x else NonceExec(NonceStep(x, moves[0]), moves[1..])
  }

  /** The calls of `accounts`, none of them started, on table `table`. */
  function Fresh(table: Table, accounts: seq<Account>): Allocation {
    Allocation(table, seq(|accounts|, i requires 0 <= i < |accounts| => Call(accounts[i], Started)), [])
  }

  /** The commits for one account, in order. */
  function CommitsOf(commits: seq<Committed>, a: Account): seq<Committed> {
    if commits == [] then []
    else
      var n := |commits| - 1;
      CommitsOf(commits[..n], a) + (if commits[n].account == a then [commits[n]] else [])
  }

  lemma {:induction false} CommitsOfAppend(commits: seq<Committed>, c: Committed, a: Account)
    ensures CommitsOf(commits + [c], a) == CommitsOf(commits, a) + (if c.account == a then [c] else [])
  {
    assert (commits + [c])[..|commits|] == commits;
  }

  /** One account's commits so far: a gap-free run of nonces, ending at the table's entry. */
  ghost predicate Sequential(table0: Table, x: Allocation, a: Account) {
    var cs := CommitsOf(x.commits, a);
    if cs == [] then (a in x.table <==> a in table0) && (a in table0 ==> x.table[a] == table0[a])
    else
      && (forall i :: 0 <= i < |cs| ==> cs[i].nonce == cs[0].nonce + i)
      && a in x.table && x.table[a] == cs[|cs| - 1].nonce
      && (if a in table0 then cs[0].nonce == table0[a] + 1 else cs[0].fetched && cs[0].nonce == cs[0].remote)
  }

  /** While an account is not in the table, what its calls are about to commit was fetched. */
  ghost predicate FetchedFirst(x: Allocation) {
    forall i :: 0 <= i < |x.calls| && x.calls[i].account !in x.table ==>
      (x.calls[i].stage.HasRead? ==> x.calls[i].stage.cached.None?)
      && (x.calls[i].stage.HasNonce? ==> x.calls[i].stage.fetched)
  }

  lemma {:induction false} StepFetchedFirst(x: Allocation, mv: Move)
    requires FetchedFirst(x)
    ensures FetchedFirst(NonceStep(x, mv))
  {
  }

  /** The locked section appends the next nonce of its account. */
  lemma {:induction false} CommitSequential(table0: Table, x: Allocation, c: Committed, calls': seq<Call>, a: Account)
    requires Sequential(table0, x, a)
    requires c.account !in x.table ==> c.fetched
    requires c.nonce == Commit(x.table, c.account, c.remote).1
    ensures Sequential(table0, Allocation(Commit(x.table, c.account, c.remote).0, calls', x.commits + [c]), a)
  {
    CommitsOfAppend(x.commits, c, a);
  }

  lemma {:induction false} StepSequential(table0: Table, x: Allocation, mv: Move, a: Account)
    requires FetchedFirst(x) && Sequential(table0, x, a)
    ensures Sequential(table0, NonceStep(x, mv), a)
  {
    if mv.Lock? && mv.i < |x.calls| && x.calls[mv.i].stage.HasNonce? {
      var x' := NonceStep(x, mv);
      CommitSequential(table0, x, x'.commits[|x.commits|], x'.calls, a);
    } else {
      assert NonceStep(x, mv).commits == x.commits && NonceStep(x, mv).table == x.table;
    }
  }

  /** Calls and commits tell the same story: each call commits at most once and returns what it
      committed. */
  ghost predicate Recorded(x: Allocation) {
    && (forall p :: 0 <= p < |x.commits| ==>
          var c := x.commits[p];
          c.call < |x.calls| && x.calls[c.call] == Call(c.account, Returned(c.nonce)))
    && (forall p, q :: 0 <= p < q < |x.commits| ==> x.commits[p].call != x.commits[q].call)
  }

  lemma {:induction false} StepRecorded(x: Allocation, mv: Move)
    requires Recorded(x)
    ensures Recorded(NonceStep(x, mv))
  {
  }

  function CountReturned(calls: seq<Call>, a: Account): nat {
    if calls == [] then 0
    else
      var n := |calls| - 1;
      CountReturned(calls[..n], a) + (if calls[n].account == a && calls[n].stage.Returned? then 1 else 0)
  }

  lemma {:induction false} CountReturnedUpdate(calls: seq<Call>, i: nat, stage: Stage, a: Account)
    requires i < |calls| && !calls[i].stage.Returned?
    ensures CountReturned(calls[i := Call(calls[i].account, stage)], a)
         == CountReturned(calls, a) + (if calls[i].account == a && stage.Returned? then 1 else 0)
  {
    var n := |calls| - 1;
    var calls' := calls[i := Call(calls[i].account, stage)];
    if i == n {
      assert calls'[..n] == calls[..n];
    } else {
      CountReturnedUpdate(calls[..n], i, stage, a);
      assert calls'[..n] == calls[..n][i := Call(calls[i].account, stage)];
    }
  }

  lemma {:induction false} StepCounts(x: Allocation, mv: Move, a: Account)
    requires |CommitsOf(x.commits, a)| == CountReturned(x.calls, a)
    ensures var x' := NonceStep(x, mv); |CommitsOf(x'.commits, a)| == CountReturned(x'.calls, a)
  {
    if mv.i < |x.calls| && !x.calls[mv.i].stage.Returned? {
      var x' := NonceStep(x, mv);
      CountReturnedUpdate(x.calls, mv.i, x'.calls[mv.i].stage, a);
      if x'.commits != x.commits {
        CommitsOfAppend(x.commits, x'.commits[|x.commits|], a);
      } else {
        assert x.calls[mv.i := x.calls[mv.i]] == x.calls;
      }
    }
  }

  lemma {:induction false} ExecSound(table0: Table, x: Allocation, moves: seq<Move>, a: Account)
    requires FetchedFirst(x) && Sequential(table0, x, a) && Recorded(x)
    requires |CommitsOf(x.commits, a)| == CountReturned(x.calls, a)
    ensures var x' := NonceExec(x, moves);
            && Sequential(table0, x', a) && Recorded(x')
            && |CommitsOf(x'.commits, a)| == CountReturned(x'.calls, a)
    decreases |moves|
  {
    if moves != [] {
      StepFetchedFirst(x, moves[0]);
      StepSequential(table0, x, moves[0], a);
      StepRecorded(x, moves[0]);
      StepCounts(x, moves[0], a);
      ExecSound(table0, NonceStep(x, moves[0]), moves[1..], a);
    }
  }

  lemma {:induction false} NoneReturned(calls: seq<Call>, a: Account)
    requires forall i :: 0 <= i < |calls| ==> !calls[i].stage.Returned?
    ensures CountReturned(calls, a) == 0
  {
    if calls != [] {
      NoneReturned(calls[..|calls| - 1], a);
    }
  }

  /**
   * Under every interleaving, the nonces committed for an account are `N`, `N + 1`, ... in commit
   * order without a gap, as many as calls for it have returned. `N` follows the table's entry, or
   * is the first committed fetch when there was none.
   */
  lemma {:induction false} InterleavedNonces(table: Table, accounts: seq<Account>, moves: seq<Move>, a: Account)
    ensures var x := NonceExec(Fresh(table, accounts), moves);
            var cs := CommitsOf(x.commits, a);
            && |cs| == CountReturned(x.calls, a)
            && (forall i :: 0 <= i < |cs| ==> cs[i].nonce == cs[0].nonce + i)
            && (cs != [] && a in table ==> cs[0].nonce == table[a] + 1)
            && (cs != [] && a !in table ==> cs[0].fetched && cs[0].nonce == cs[0].remote)
  {
    var x := Fresh(table, accounts);
    NoneReturned(x.calls, a);
    ExecSound(table, x, moves, a);
  }

  lemma {:induction false} CommitsOfMember(commits: seq<Committed>, a: Account, p: nat) returns (q: nat)
    requires p < |commits| && commits[p].account == a
    ensures q < |CommitsOf(commits, a)| && CommitsOf(commits, a)[q] == commits[p]
  {
    var n := |commits| - 1;
    if p == n {
      q := |CommitsOf(commits[..n], a)|;
    } else {
      q := CommitsOfMember(commits[..n], a, p);
    }
  }

  /** Every returned call has its commit. */
  ghost predicate AllCommitted(x: Allocation) {
    forall i :: 0 <= i < |x.calls| && x.calls[i].stage.Returned? ==> HasCommit(x, i)
  }

  ghost predicate HasCommit(x: Allocation, i: nat)
    requires i < |x.calls|
  {
    exists p :: 0 <= p < |x.commits| && x.commits[p].call == i
         && x.calls[i] == Call(x.commits[p].account, Returned(x.commits[p].nonce))
  }

  lemma {:induction false} StepAllCommitted(x: Allocation, mv: Move)
    requires AllCommitted(x)
    ensures AllCommitted(NonceStep(x, mv))
  {
    var x' := NonceStep(x, mv);
    forall i | 0 <= i < |x'.calls| && x'.calls[i].stage.Returned? ensures HasCommit(x', i) {
      if x.calls[i].stage.Returned? {
        assert HasCommit(x, i);
        var p :| 0 <= p < |x.commits| && x.commits[p].call == i
             && x.calls[i] == Call(x.commits[p].account, Returned(x.commits[p].nonce));
        assert x'.commits[p] == x.commits[p];
      } else {
        assert x'.commits[|x.commits|].call == i;
      }
    }
  }

  lemma {:induction false} ExecAllCommitted(x: Allocation, moves: seq<Move>)
    requires AllCommitted(x)
    ensures AllCommitted(NonceExec(x, moves))
    decreases |moves|
  {
    if moves != [] {
      StepAllCommitted(x, moves[0]);
      ExecAllCommitted(NonceStep(x, moves[0]), moves[1..]);
    }
  }

  /** No two calls for the same account return the same nonce. */
  lemma {:induction false} InterleavedDistinct(table: Table, accounts: seq<Account>, moves: seq<Move>, i: nat, j: nat)
    requires var x := NonceExec(Fresh(table, accounts), moves);
             i < j < |x.calls| && x.calls[i].stage.Returned? && x.calls[j].stage.Returned?
             && x.calls[i].account == x.calls[j].account
    ensures var x := NonceExec(Fresh(table, accounts), moves);
            x.calls[i].stage.nonce != x.calls[j].stage.nonce
  {
    var x := NonceExec(Fresh(table, accounts), moves);
    var a := x.calls[i].account;
    var pi, qi := CommitOfCall(table, accounts, moves, i);
    var pj, qj := CommitOfCall(table, accounts, moves, j);
    InterleavedNonces(table, accounts, moves, a);
  }

  /** Where the commit of a returned call is, among all commits and among its account's. */
  lemma {:induction false} CommitOfCall(table: Table, accounts: seq<Account>, moves: seq<Move>, i: nat)
    returns (p: nat, q: nat)
    requires var x := NonceExec(Fresh(table, accounts), moves); i < |x.calls| && x.calls[i].stage.Returned?
    ensures var x := NonceExec(Fresh(table, accounts), moves);
            var cs := CommitsOf(x.commits, x.calls[i].account);
            && p < |x.commits| && x.commits[p].call == i
            && q < |cs| && cs[q] == x.commits[p] && cs[q].nonce == x.calls[i].stage.nonce
  {
    var x := NonceExec(Fresh(table, accounts), moves);
    ExecAllCommitted(Fresh(table, accounts), moves);
    assert HasCommit(x, i);
    p :| 0 <= p < |x.commits| && x.commits[p].call == i
         && x.calls[i] == Call(x.commits[p].account, Returned(x.commits[p].nonce));
    q := CommitsOfMember(x.commits, x.calls[i].account, p);
  }

  /** A returned call's nonce lies in the run that starts at its account's first nonce. */
  lemma {:induction false} InterleavedRange(table: Table, accounts: seq<Account>, moves: seq<Move>, i: nat)
    requires var x := NonceExec(Fresh(table, accounts), moves); i < |x.calls| && x.calls[i].stage.Returned?
    ensures var x := NonceExec(Fresh(table, accounts), moves);
            var a := x.calls[i].account;
            var cs := CommitsOf(x.commits, a);
            && cs != [] && |cs| == CountReturned(x.calls, a)
            && cs[0].nonce <= x.calls[i].stage.nonce < cs[0].nonce + |cs|
  {
    var p, q := CommitOfCall(table, accounts, moves, i);
    InterleavedNonces(table, accounts, moves, NonceExec(Fresh(table, accounts), moves).calls[i].account);
  }
}
