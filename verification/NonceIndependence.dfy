/** Accounts do not influence each other's nonces (check_account_nonce in src/subxt_transaction.rs). */
module NonceIndependence {
  import opened Nonces

  /** The moves of the calls for account `a`. */
  function MovesFor(names: seq<Account>, moves: seq<Move>, a: Account): seq<Move> {
    if moves == [] then []
    else
      (if moves[0].i < |names| && names[moves[0].i] == a then [moves[0]] else []) + MovesFor(names, moves[1..], a)
  }

  /** The two runs look the same to account `a`. */
  ghost predicate Alike(names: seq<Account>, x: Allocation, y: Allocation, a: Account) {
    && |x.calls| == |y.calls| == |names|
    && (forall i :: 0 <= i < |names| ==> x.calls[i].account == names[i] == y.calls[i].account)
    && (forall i :: 0 <= i < |names| && names[i] == a ==> x.calls[i] == y.calls[i])
    && (a in x.table <==> a in y.table)
    && (a in x.table ==> x.table[a] == y.table[a])
    && CommitsOf(x.commits, a) == CommitsOf(y.commits, a)
  }

  /** A move for another account is not noticed. */
  lemma {:induction false} OtherMove(names: seq<Account>, x: Allocation, y: Allocation, a: Account, mv: Move)
    requires Alike(names, x, y, a) && !(mv.i < |names| && names[mv.i] == a)
    ensures Alike(names, NonceStep(x, mv), y, a)
  {
    var x' := NonceStep(x, mv);
    if x'.commits != x.commits {
      CommitsOfAppend(x.commits, x'.commits[|x.commits|], a);
    }
  }

  /** A locked section of the account does the same in both. */
  lemma {:induction false} OwnLock(names: seq<Account>, x: Allocation, y: Allocation, a: Account, i: nat)
    requires Alike(names, x, y, a) && i < |names| && names[i] == a && x.calls[i].stage.HasNonce?
    ensures Alike(names, NonceStep(x, Lock(i)), NonceStep(y, Lock(i)), a)
  {
    var x', y' := NonceStep(x, Lock(i)), NonceStep(y, Lock(i));
    assert Commit(x.table, a, x.calls[i].stage.remote).1 == Commit(y.table, a, y.calls[i].stage.remote).1;
    assert x'.commits[|x.commits|] == y'.commits[|y.commits|];
    CommitsOfAppend(x.commits, x'.commits[|x.commits|], a);
    CommitsOfAppend(y.commits, y'.commits[|y.commits|], a);
  }

  /** A move for the account does the same in both. */
  lemma {:induction false} OwnMove(names: seq<Account>, x: Allocation, y: Allocation, a: Account, mv: Move)
    requires Alike(names, x, y, a) && mv.i < |names| && names[mv.i] == a
    ensures Alike(names, NonceStep(x, mv), NonceStep(y, mv), a)
  {
    if mv.Lock? && x.calls[mv.i].stage.HasNonce? {
      OwnLock(names, x, y, a, mv.i);
    } else {
      var x', y' := NonceStep(x, mv), NonceStep(y, mv);
      assert x'.commits == x.commits && x'.table == x.table;
      assert y'.commits == y.commits && y'.table == y.table;
    }
  }

  lemma {:induction false} ExecAlike(names: seq<Account>, x: Allocation, y: Allocation, a: Account, moves: seq<Move>)
    requires Alike(names, x, y, a)
    ensures Alike(names, NonceExec(x, moves), NonceExec(y, MovesFor(names, moves, a)), a)
    decreases |moves|
  {
    if moves != [] {
      var rest := MovesFor(names, moves[1..], a);
      if moves[0].i < |names| && names[moves[0].i] == a {
        OwnMove(names, x, y, a, moves[0]);
        ExecAlike(names, NonceStep(x, moves[0]), NonceStep(y, moves[0]), a, moves[1..]);
        assert ([moves[0]] + rest)[1..] == rest;
      } else {
        OtherMove(names, x, y, a, moves[0]);
        ExecAlike(names, NonceStep(x, moves[0]), y, a, moves[1..]);
        assert [] + rest == rest;
      }
    }
  }

  /**
   * Deleting every move of the other accounts from an interleaving changes nothing for an account:
   * its calls are at the same stage with the same nonces, its commits are the same in the same
   * order, and so is its entry in the table.
   */
  lemma {:induction false} AccountsAreIndependent(table: Table, names: seq<Account>, moves: seq<Move>, a: Account)
    ensures var x := NonceExec(Fresh(table, names), moves);
            var y := NonceExec(Fresh(table, names), MovesFor(names, moves, a));
            && |x.calls| == |y.calls| == |names|
            && (forall i :: 0 <= i < |names| && names[i] == a ==> x.calls[i] == y.calls[i])
            && CommitsOf(x.commits, a) == CommitsOf(y.commits, a)
            && (a in x.table <==> a in y.table) && (a in x.table ==> x.table[a] == y.table[a])
  {
    ExecAlike(names, Fresh(table, names), Fresh(table, names), a, moves);
  }
}
