/** Single calls of the nonce allocator (check_account_nonce in src/subxt_transaction.rs): what they
    take from the chain, when they fail, and what one does on its own. */
module NonceCalls {
  import opened Wrappers
  import opened Nonces

  /** A call from its first step to its last, the chain answering `answer`. */
  function WholeCall(i: nat, answer: Option<nat>): seq<Move> {
    [Read(i), Fetch(i, answer), Lock(i)]
  }

  lemma {:induction false} ExecWholeCall(x: Allocation, i: nat, answer: Option<nat>)
    ensures NonceExec(x, WholeCall(i, answer)) == NonceStep(NonceStep(NonceStep(x, Read(i)), Fetch(i, answer)), Lock(i))
  {
    var moves := WholeCall(i, answer);
    assert moves[1..][1..] == moves[2..] && moves[2..][1..] == [];
    var x2 := NonceStep(NonceStep(x, moves[0]), moves[1]);
    assert NonceExec(x, moves) == NonceExec(x2, moves[2..]);
    assert NonceExec(x2, moves[2..]) == NonceStep(x2, moves[2]);
  }

  /** A call that nothing interrupts: the successor of the table's entry, whatever the chain would
      say; without an entry the chain's nonce; without either an error that changes nothing. */
  lemma {:induction false} CallAlone(x: Allocation, i: nat, answer: Option<nat>)
    requires i < |x.calls| && x.calls[i].stage.Started?
    ensures var x', a := NonceExec(x, WholeCall(i, answer)), x.calls[i].account;
            && (a in x.table ==>
                  && x'.table == x.table[a := x.table[a] + 1]
                  && x'.calls == x.calls[i := Call(a, Returned(x.table[a] + 1))])
            && (a !in x.table && answer.Some? ==>
                  && x'.table == x.table[a := answer.value]
                  && x'.calls == x.calls[i := Call(a, Returned(answer.value))])
            && (a !in x.table && answer.None? ==>
                  x'.table == x.table && x'.calls == x.calls[i := Call(a, Failed)])
  {
    var a := x.calls[i].account;
    ExecWholeCall(x, i, answer);
    var x1 := NonceStep(x, Read(i));
    assert x1.table == x.table;
    assert x1.calls == x.calls[i := Call(a, HasRead(if a in x.table then Some(x.table[a]) else None))];
    var x2 := NonceStep(x1, Fetch(i, answer));
    assert x2.table == x.table;
    if a in x.table {
      assert x2.calls == x.calls[i := Call(a, HasNonce(x.table[a], false))];
    } else if answer.Some? {
      assert x2.calls == x.calls[i := Call(a, HasNonce(answer.value, true))];
    } else {
      assert x2.calls == x.calls[i := Call(a, Failed)];
    }
  }

  /** Whatever has happened so far, a call that has not failed can be brought to its return. */
  lemma {:induction false} CallCanReturn(x: Allocation, i: nat)
    requires i < |x.calls| && !x.calls[i].stage.Failed?
    ensures var x' := NonceExec(x, WholeCall(i, Some(0)));
            |x'.calls| == |x.calls| && x'.calls[i].stage.Returned?
  {
    ExecWholeCall(x, i, Some(0));
    var x1 := NonceStep(x, Read(i));
    assert !x1.calls[i].stage.Started? && !x1.calls[i].stage.Failed?;
    var x2 := NonceStep(x1, Fetch(i, Some(0)));
    assert x2.calls[i].stage.HasNonce? || x2.calls[i].stage.Returned?;
  }

  // ---- Where fetched nonces and failures come from ----

  /** Every fetched nonce is the chain's answer to the very call that uses it, and a call fails only
      if the chain failed it. */
  ghost predicate Sourced(x: Allocation, past: seq<Move>) {
    && (forall i :: 0 <= i < |x.calls| ==> CallSourced(x.calls[i].stage, i, past))
    && (forall p :: 0 <= p < |x.commits| && x.commits[p].fetched ==>
          Fetch(x.commits[p].call, Some(x.commits[p].remote)) in past)
  }

  predicate CallSourced(stage: Stage, i: nat, past: seq<Move>) {
    && (stage.HasNonce? && stage.fetched ==> Fetch(i, Some(stage.remote)) in past)
    && (stage.Failed? ==> Fetch(i, None) in past)
  }

  lemma {:induction false} StepSourced(x: Allocation, past: seq<Move>, mv: Move)
    requires Sourced(x, past)
    ensures Sourced(NonceStep(x, mv), past + [mv])
  {
    var x' := NonceStep(x, mv);
    forall i | 0 <= i < |x'.calls| ensures CallSourced(x'.calls[i].stage, i, past + [mv]) {
      assert CallSourced(x.calls[i].stage, i, past);
    }
    if x'.commits != x.commits {
      assert CallSourced(x.calls[mv.i].stage, mv.i, past);
    }
  }

  lemma {:induction false} ExecSourced(x: Allocation, past: seq<Move>, moves: seq<Move>)
    requires Sourced(x, past)
    ensures Sourced(NonceExec(x, moves), past + moves)
    decreases |moves|
  {
    if moves == [] {
      assert past + moves == past;
    } else {
      StepSourced(x, past, moves[0]);
      ExecSourced(NonceStep(x, moves[0]), past + [moves[0]], moves[1..]);
      assert past + [moves[0]] + moves[1..] == past + moves;
    }
  }

  /** Under every interleaving. */
  lemma {:induction false} FetchesAreAnswers(table: Table, accounts: seq<Account>, moves: seq<Move>)
    ensures Sourced(NonceExec(Fresh(table, accounts), moves), moves)
  {
    ExecSourced(Fresh(table, accounts), [], moves);
    assert [] + moves == moves;
  }

  // ---- Accounts the table knows ----

  /** Calls of account `a` use the table and do not fail. */
  ghost predicate Known(x: Allocation, a: Account) {
    && a in x.table
    && forall i :: 0 <= i < |x.calls| && x.calls[i].account == a ==>
         && (x.calls[i].stage.HasRead? ==> x.calls[i].stage.cached.Some?)
         && (x.calls[i].stage.HasNonce? ==> !x.calls[i].stage.fetched)
         && !x.calls[i].stage.Failed?
  }

  lemma {:induction false} StepKnown(x: Allocation, a: Account, mv: Move)
    requires Known(x, a)
    ensures Known(NonceStep(x, mv), a)
  {
  }

  lemma {:induction false} ExecKnown(x: Allocation, a: Account, moves: seq<Move>)
    requires Known(x, a)
    ensures Known(NonceExec(x, moves), a)
    decreases |moves|
  {
    if moves != [] {
      StepKnown(x, a, moves[0]);
      ExecKnown(NonceStep(x, moves[0]), a, moves[1..]);
    }
  }

  /** A call for an account that the table knows never asks the chain and never fails, under any
      interleaving and whatever the chain would answer. */
  lemma {:induction false} KnownAccountsNeverFail(table: Table, accounts: seq<Account>, moves: seq<Move>, a: Account)
    requires a in table
    ensures Known(NonceExec(Fresh(table, accounts), moves), a)
  {
    ExecKnown(Fresh(table, accounts), a, moves);
  }
}
