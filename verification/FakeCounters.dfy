/** What the shared counters stand at after a drained run against the fake sink. */
module FakeCounters {
  import opened Transactions
  import opened ExecutionLog
  import opened Scheduler
  import opened Budgeting
  import opened Transcripts
  import opened FakeSink
  import opened FakeCompletion
  import opened FakeLogs

  // ---- A recount, task by task ----

  function HashSet(tasks: seq<Task>): set<Hash> {
    if tasks == [] then {} else HashSet(tasks[..|tasks| - 1]) + {tasks[|tasks| - 1].hash}
  }

  lemma {:induction false} HashSetMembers(tasks: seq<Task>, h: Hash)
    ensures h in HashSet(tasks) <==> exists j :: 0 <= j < |tasks| && tasks[j].hash == h
  {
    if tasks != [] {
      var n := |tasks| - 1;
      HashSetMembers(tasks[..n], h);
      if h in HashSet(tasks[..n]) {
        var j :| 0 <= j < n && tasks[..n][j].hash == h;
        assert tasks[j].hash == h;
      }
    }
  }

  /** What the final logs of the tasks contribute to a counter. */
  function FinalContributions(tasks: seq<Task>, k: Kind): nat {
    if tasks == [] then 0
    else FinalContributions(tasks[..|tasks| - 1], k) + Contribution(FinalLog(tasks[|tasks| - 1]), k)
  }

  lemma {:induction false} RecountByTask(tasks: seq<Task>, logs: map<Hash, seq<Event>>, k: Kind)
    requires forall i, j :: 0 <= i < j < |tasks| ==> tasks[i].hash != tasks[j].hash
    requires forall j :: 0 <= j < |tasks| ==> tasks[j].hash in logs && logs[tasks[j].hash] == FinalLog(tasks[j])
    ensures HashSet(tasks) <= logs.Keys && Recount(logs, HashSet(tasks), k) == FinalContributions(tasks, k)
  {
    if tasks != [] {
      var n := |tasks| - 1;
      var h := tasks[n].hash;
      RecountByTask(tasks[..n], logs, k);
      HashSetMembers(tasks[..n], h);
      RecountPick(logs, HashSet(tasks), h, k);
      assert HashSet(tasks) - {h} == HashSet(tasks[..n]);
    }
  }

  lemma {:induction false} KeysAreHashes(threshold: nat, txs: seq<Task>, ls: seq<Label>)
    ensures Run(threshold, false, txs, ls).logs.Keys == HashSet(txs)
  {
    var s := New(threshold, false, txs);
    RefillFrame(s, threshold);
    ExecKeepsLogs(Begin(threshold, false, txs), ls);
    forall h ensures h in s.logs.Keys <==> h in HashSet(txs) {
      HashSetMembers(txs, h);
      assert h in Hashes(txs) <==> exists j :: 0 <= j < |txs| && txs[j].hash == h by {
        assert forall j :: 0 <= j < |txs| ==> Hashes(txs)[j] == txs[j].hash;
      }
    }
  }

  /** After a drained run over distinct hashes every counter is the sum of what the final logs, and so
      the scripts, contribute to it. */
  lemma {:induction false} FakeRunTally(threshold: nat, txs: seq<Task>, ls: seq<FakeLabel>, k: Kind)
    requires Distinct(Hashes(txs)) && |txs| <= USIZE_MAX && Uninterrupted(ls)
    requires Drainable(threshold, txs) && !FakeRun(threshold, txs, ls).runner.phase.Running?
    ensures FakeRun(threshold, txs, ls).runner.tally[k] == FinalContributions(txs, k)
  {
    var s := FakeRun(threshold, txs, ls).runner;
    var branches := Concretes(FakeBegin(threshold, txs), ls);
    FakeRunsAreRuns(FakeBegin(threshold, txs), ls);
    RunKeepsTallyExact(threshold, false, txs, branches);
    KeysAreHashes(threshold, txs, branches);
    FakeRunResults(threshold, txs, ls);
    forall i, j | 0 <= i < j < |txs| ensures txs[i].hash != txs[j].hash {
      assert Hashes(txs)[i] != Hashes(txs)[j];
    }
    RecountByTask(txs, s.logs, k);
    assert s.tally[k] == Recount(s.logs, s.logs.Keys, k);
  }

  // ---- The counters of the terminal statuses ----

  /** A watched task whose last played status belongs to the counter. */
  predicate DecidedAs(t: Task, k: Kind) {
    var played := Played(t.script);
    t.watched && played != [] && Belongs(k, TxPoolEvent(played[|played| - 1]))
  }

  function CountDecided(tasks: seq<Task>, k: Kind): nat {
    if tasks == [] then 0
    else CountDecided(tasks[..|tasks| - 1], k) + (if DecidedAs(tasks[|tasks| - 1], k) then 1 else 0)
  }

  predicate IsTerminalKind(k: Kind) {
    k.CFinalized? || k.CDropped? || k.CInvalid? || k.CErrored?
  }

  lemma {:induction false} MatchingConcat(log: seq<Event>, es: seq<Event>, k: Kind)
    ensures Matching(log + es, k) == Matching(log, k) + Matching(es, k)
  {
    if es == [] {
      assert log + es == log;
    } else {
      var n := |es| - 1;
      assert log + es == (log + es[..n]) + [es[n]];
      MatchingAppend(log + es[..n], es[n], k);
      MatchingConcat(log, es[..n], k);
    }
  }

  lemma {:induction false} NoneMatching(log: seq<Event>, k: Kind)
    requires forall i :: 0 <= i < |log| ==> !Belongs(k, log[i])
    ensures Matching(log, k) == 0
  {
    if log != [] {
      NoneMatching(log[..|log| - 1], k);
    }
  }

  /** Only the last of the played statuses can be terminal. */
  lemma {:induction false} PlayedMatching(statuses: seq<TransactionStatus>, k: Kind)
    requires IsTerminalKind(k) && forall i :: 0 <= i < |statuses| - 1 ==> !statuses[i].IsTerminal()
    ensures Matching(PoolEvents(statuses), k)
         == if statuses != [] && Belongs(k, TxPoolEvent(statuses[|statuses| - 1])) then 1 else 0
  {
    if statuses != [] {
      var n := |statuses| - 1;
      var es := PoolEvents(statuses);
      forall i | 0 <= i < n ensures !Belongs(k, es[..n][i]) {
        NotTerminalKind(statuses[i], k);
      }
      NoneMatching(es[..n], k);
      MatchingAppend(es[..n], es[n], k);
      assert es == es[..n] + [es[n]];
    }
  }

  lemma {:induction false} NotTerminalKind(status: TransactionStatus, k: Kind)
    requires IsTerminalKind(k) && !status.IsTerminal()
    ensures !Belongs(k, TxPoolEvent(status))
  {
  }

  lemma {:induction false} WatchedMatching(played: seq<TransactionStatus>, k: Kind)
    requires IsTerminalKind(k) && forall i :: 0 <= i < |played| - 1 ==> !played[i].IsTerminal()
    ensures Matching(WATCHED_HEAD + PoolEvents(played), k)
         == if played != [] && Belongs(k, TxPoolEvent(played[|played| - 1])) then 1 else 0
  {
    NoneMatching(WATCHED_HEAD, k);
    PlayedMatching(played, k);
    MatchingConcat(WATCHED_HEAD, PoolEvents(played), k);
  }

  lemma {:induction false} PlainMatching(t: Task, k: Kind)
    requires IsTerminalKind(k) && !t.watched
    ensures Matching(FinalLog(t), k) == 0
  {
    forall i | 0 <= i < |FinalLog(t)| ensures !Belongs(k, FinalLog(t)[i]) {
      assert !FinalLog(t)[i].TxPoolEvent?;
    }
    NoneMatching(FinalLog(t), k);
  }

  lemma {:induction false} FinalLogMatching(t: Task, k: Kind)
    requires IsTerminalKind(k)
    ensures Contribution(FinalLog(t), k) == if DecidedAs(t, k) then 1 else 0
  {
    if t.watched {
      WatchedMatching(Played(t.script), k);
    } else {
      PlainMatching(t, k);
    }
  }

  lemma {:induction false} ContributionsAreDecided(tasks: seq<Task>, k: Kind)
    requires IsTerminalKind(k)
    ensures FinalContributions(tasks, k) == CountDecided(tasks, k)
  {
    if tasks != [] {
      ContributionsAreDecided(tasks[..|tasks| - 1], k);
      FinalLogMatching(tasks[|tasks| - 1], k);
    }
  }

  /** For a watched task, success and being counted as finalized are the same. */
  lemma {:induction false} SuccessIsFinalized(t: Task)
    requires t.watched
    ensures Succeeds(t) <==> DecidedAs(t, CFinalized)
  {
  }

  /**
   * After a drained run over distinct hashes the finalized counter is the number of watched tasks that
   * succeed, and the dropped, invalid and error counters are the numbers of watched tasks whose last
   * played status is of that kind, whatever the schedule.
   */
  lemma {:induction false} FakeRunTerminalCounters(threshold: nat, txs: seq<Task>, ls: seq<FakeLabel>, k: Kind)
    requires Distinct(Hashes(txs)) && |txs| <= USIZE_MAX && Uninterrupted(ls) && IsTerminalKind(k)
    requires Drainable(threshold, txs) && !FakeRun(threshold, txs, ls).runner.phase.Running?
    ensures FakeRun(threshold, txs, ls).runner.tally[k] == CountDecided(txs, k)
  {
    FakeRunTally(threshold, txs, ls, k);
    ContributionsAreDecided(txs, k);
  }
}
