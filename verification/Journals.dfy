/**
 * What the logs of a run say, for transactions with distinct hashes: each log is a word of the
 * grammar that fits where its task is.
 */
module Journals {
  import opened Transactions
  import opened ExecutionLog
  import opened TxTask
  import opened Scheduler
  import opened Budgeting

  // ---- Where a hash is, it is only once ----

  ghost predicate Single(s: State) {
    forall h :: Occurrences(s, h) <= 1
  }

  /** No two tasks of a state share a hash. */
  ghost predicate Apart(s: State) {
    && (forall i, j :: 0 <= i < j < |s.live| ==> s.live[i].task.hash != s.live[j].task.hash)
    && (forall i, j :: 0 <= i < j < |s.queue| ==> s.queue[i].hash != s.queue[j].hash)
    && (forall i, j :: 0 <= i < |s.live| && 0 <= j < |s.queue| ==> s.live[i].task.hash != s.queue[j].hash)
    && (forall i :: 0 <= i < |s.live| ==> s.live[i].task.hash !in s.done && s.live[i].task.hash !in s.errors)
    && (forall j :: 0 <= j < |s.queue| ==> s.queue[j].hash !in s.done && s.queue[j].hash !in s.errors)
    && (forall h :: h in s.done ==> h !in s.errors)
  }

  lemma {:induction false} LiveCountIndices(live: seq<Worker>, i: nat, j: nat)
    requires i <= j < |live| && live[i].task.hash == live[j].task.hash
    ensures LiveCount(live, live[i].task.hash) >= (if i < j then 2 else 1)
  {
    var n := |live| - 1;
    if j < n {
      LiveCountIndices(live[..n], i, j);
    } else if i < j {
      LiveCountIndices(live[..n], i, i);
    }
  }

  lemma {:induction false} TaskCountIndices(tasks: seq<Task>, i: nat, j: nat)
    requires i <= j < |tasks| && tasks[i].hash == tasks[j].hash
    ensures TaskCount(tasks, tasks[i].hash) >= (if i < j then 2 else 1)
  {
    var n := |tasks| - 1;
    if j < n {
      TaskCountIndices(tasks[..n], i, j);
    } else if i < j {
      TaskCountIndices(tasks[..n], i, i);
    }
  }

  lemma {:induction false} HashCountMember(hs: seq<Hash>, h: Hash)
    ensures HashCount(hs, h) >= 1 <==> h in hs
  {
    if hs != [] {
      var n := |hs| - 1;
      HashCountMember(hs[..n], h);
      assert hs == hs[..n] + [hs[n]];
    }
  }

  lemma {:induction false} TaskCountDistinct(tasks: seq<Task>, h: Hash)
    requires Distinct(Hashes(tasks))
    ensures TaskCount(tasks, h) <= 1
    ensures TaskCount(tasks, h) == 1 ==> exists j :: 0 <= j < |tasks| && tasks[j].hash == h
  {
    if tasks != [] {
      var n := |tasks| - 1;
      var hs := Hashes(tasks);
      assert Distinct(Hashes(tasks[..n])) by {
        forall i, j | 0 <= i < j < n ensures Hashes(tasks[..n])[i] != Hashes(tasks[..n])[j] {
          assert hs[i] != hs[j];
        }
      }
      TaskCountDistinct(tasks[..n], h);
      assert forall j :: 0 <= j < n ==> tasks[..n][j].hash == hs[j] && hs[j] != hs[n];
    }
  }

  lemma {:induction false} SingleLiveApart(s: State, i: nat)
    requires Single(s) && i < |s.live|
    ensures var h := s.live[i].task.hash;
            && (forall j :: 0 <= j < |s.live| && j != i ==> s.live[j].task.hash != h)
            && (forall j :: 0 <= j < |s.queue| ==> s.queue[j].hash != h)
            && h !in s.done && h !in s.errors
  {
    var h := s.live[i].task.hash;
    assert Occurrences(s, h) <= 1;
    LiveCountIndices(s.live, i, i);
    HashCountMember(s.done, h);
    HashCountMember(s.errors, h);
    forall j | 0 <= j < |s.live| && j != i ensures s.live[j].task.hash != h {
      if s.live[j].task.hash == h {
        LiveCountIndices(s.live, if i < j then i else j, if i < j then j else i);
      }
    }
    forall j | 0 <= j < |s.queue| ensures s.queue[j].hash != h {
      if s.queue[j].hash == h {
        TaskCountIndices(s.queue, j, j);
      }
    }
  }

  lemma {:induction false} SingleQueueApart(s: State, i: nat)
    requires Single(s) && i < |s.queue|
    ensures var h := s.queue[i].hash;
            && (forall j :: 0 <= j < |s.queue| && j != i ==> s.queue[j].hash != h)
            && h !in s.done && h !in s.errors
  {
    var h := s.queue[i].hash;
    assert Occurrences(s, h) <= 1;
    TaskCountIndices(s.queue, i, i);
    HashCountMember(s.done, h);
    HashCountMember(s.errors, h);
    forall j | 0 <= j < |s.queue| && j != i ensures s.queue[j].hash != h {
      if s.queue[j].hash == h {
        TaskCountIndices(s.queue, if i < j then i else j, if i < j then j else i);
      }
    }
  }

  lemma {:induction false} SingleIsApart(s: State)
    requires Single(s)
    ensures Apart(s)
  {
    forall i | 0 <= i < |s.live|
      ensures (forall j :: i < j < |s.live| ==> s.live[i].task.hash != s.live[j].task.hash)
           && (forall j :: 0 <= j < |s.queue| ==> s.live[i].task.hash != s.queue[j].hash)
           && s.live[i].task.hash !in s.done && s.live[i].task.hash !in s.errors
    {
      SingleLiveApart(s, i);
    }
    forall i | 0 <= i < |s.queue|
      ensures (forall j :: i < j < |s.queue| ==> s.queue[i].hash != s.queue[j].hash)
           && s.queue[i].hash !in s.done && s.queue[i].hash !in s.errors
    {
      SingleQueueApart(s, i);
    }
    forall h | h in s.done ensures h !in s.errors {
      assert Occurrences(s, h) <= 1;
      HashCountMember(s.done, h);
      HashCountMember(s.errors, h);
    }
  }

  lemma {:induction false} DistinctIsSingle(threshold: nat, monitored: bool, txs: seq<Task>)
    requires Distinct(Hashes(txs))
    ensures Single(New(threshold, monitored, txs))
  {
    forall h ensures Occurrences(New(threshold, monitored, txs), h) <= 1 {
      TaskCountDistinct(txs, h);
    }
  }

  // ---- The log invariant ----

  /** Live workers' logs fit their stage, queued tasks' logs are empty. */
  ghost predicate LiveLogsFit(s: State)
    requires Valid(s)
  {
    && (forall i :: 0 <= i < |s.live| ==> LiveLog(s.live[i].task, s.live[i].stage, s.logs[s.live[i].task.hash]))
    && (forall j :: 0 <= j < |s.queue| ==> s.logs[s.queue[j].hash] == [])
  }

  /** The logs of done and failed tasks are complete words. */
  ghost predicate FinishedLogsFit(txs: seq<Task>, s: State)
    requires AllLogged(txs, s)
  {
    && (forall k :: 0 <= k < |txs| && txs[k].hash in s.done ==> FinishedLog(txs[k], s.logs[txs[k].hash], true))
    && (forall k :: 0 <= k < |txs| && txs[k].hash in s.errors ==> FinishedLog(txs[k], s.logs[txs[k].hash], false))
  }

  ghost predicate Given(txs: seq<Task>, s: State) {
    && AllLogged(txs, s)
    && (forall i :: 0 <= i < |s.live| ==> s.live[i].task in txs)
    && (forall j :: 0 <= j < |s.queue| ==> s.queue[j] in txs)
  }

  ghost predicate Grammatical(txs: seq<Task>, s: State) {
    Valid(s) && Given(txs, s) && LiveLogsFit(s) && FinishedLogsFit(txs, s)
  }

  /** A task is known by its hash. */
  lemma {:induction false} SameHashSameTask(txs: seq<Task>, k: nat, t: Task)
    requires Distinct(Hashes(txs)) && k < |txs| && t in txs && txs[k].hash == t.hash
    ensures txs[k] == t
  {
    var j :| 0 <= j < |txs| && txs[j] == t;
    var hs := Hashes(txs);
    assert hs[j] == hs[k];
  }

  lemma {:induction false} StartNextGrammatical(txs: seq<Task>, s: State)
    requires Grammatical(txs, s) && Apart(s) && s.queue != []
    ensures Grammatical(txs, StartNext(s))
  {
    var t := s.queue[|s.queue| - 1];
    assert s.logs[t.hash] == [];
    assert s.logs[t.hash] + [Popped] == [Popped];
  }

  lemma {:induction false} RefillGrammatical(txs: seq<Task>, s: State, budget: nat)
    requires Grammatical(txs, s) && Single(s)
    ensures Grammatical(txs, Refill(s, budget)) && Single(Refill(s, budget))
    decreases |s.queue|
  {
    if budget != 0 && s.queue != [] {
      SingleIsApart(s);
      StartNextGrammatical(txs, s);
      StartNextSingle(s);
      RefillGrammatical(txs, StartNext(s), budget - 1);
    }
  }

  lemma {:induction false} StartNextSingle(s: State)
    requires Valid(s) && Single(s) && s.queue != []
    ensures Single(StartNext(s))
  {
    forall h ensures Occurrences(StartNext(s), h) <= 1 {
      assert Occurrences(s, h) <= 1;
      LiveAppend(s.live, Worker(s.queue[|s.queue| - 1], Fresh), h);
    }
  }

  lemma {:induction false} AdvancedGrammatical(txs: seq<Task>, s: State, i: nat, e: Event, next: Stage)
    requires Grammatical(txs, s) && Apart(s) && i < |s.live|
    requires LiveLog(s.live[i].task, next, s.logs[s.live[i].task.hash] + [e])
    ensures Grammatical(txs, Advanced(s, i, e, next))
  {
  }

  lemma {:induction false} ReturnedGrammatical(txs: seq<Task>, s: State, i: nat, es: seq<Event>, ok: bool)
    requires Distinct(Hashes(txs)) && Grammatical(txs, s) && Apart(s) && i < |s.live|
    requires FinishedLog(s.live[i].task, s.logs[s.live[i].task.hash] + es, ok)
    ensures Grammatical(txs, Returned(s, i, es, ok))
  {
    var h := s.live[i].task.hash;
    var s' := Returned(s, i, es, ok);
    forall k | 0 <= k < |txs| && txs[k].hash == h ensures FinishedLog(txs[k], s'.logs[h], ok) {
      SameHashSameTask(txs, k, s.live[i].task);
    }
    assert FinishedLogsFit(txs, s');
  }

  lemma {:induction false} ReturnedSingle(s: State, i: nat, es: seq<Event>, ok: bool)
    requires Valid(s) && Single(s) && i < |s.live|
    ensures Single(Returned(s, i, es, ok))
  {
    forall h ensures Occurrences(Returned(s, i, es, ok), h) <= 1 {
      assert Occurrences(s, h) <= 1;
      LiveWithout(s.live, i, h);
      HashAppend(if ok then s.done else s.errors, s.live[i].task.hash, h);
    }
  }

  lemma {:induction false} ConsumeGrammatical(txs: seq<Task>, s: State, pending: nat)
    requires Grammatical(txs, s) && Single(s)
    ensures Grammatical(txs, ConsumePending(s, pending))
  {
    assert Single(Sampled(s, pending)) by {
      forall h ensures Occurrences(Sampled(s, pending), h) <= 1 {
        assert Occurrences(s, h) <= 1;
      }
    }
    RefillGrammatical(txs, Sampled(s, pending), Budget(s, pending));
  }

  /** The reaction extends the worker's log to another word of the grammar. */
  ghost predicate ExtendsGrammar(w: Worker, log: seq<Event>, r: Reaction) {
    match r
    case Ignored => true
    case Continues(e, next) => LiveLog(w.task, next, log + [e])
    case Returns(es, ok) => FinishedLog(w.task, log + es, ok)
  }

  lemma {:induction false} ApplyGrammatical(txs: seq<Task>, s: State, i: nat, r: Reaction, pending: nat)
    requires Distinct(Hashes(txs)) && Grammatical(txs, s) && Single(s) && i < |s.live|
    requires ExtendsGrammar(s.live[i], s.logs[s.live[i].task.hash], r)
    ensures Grammatical(txs, Apply(s, i, r, pending))
  {
    SingleIsApart(s);
    match r
    case Ignored =>
    case Continues(e, next) => AdvancedGrammatical(txs, s, i, e, next);
    case Returns(es, ok) =>
      ReturnedGrammatical(txs, s, i, es, ok);
      ReturnedSingle(s, i, es, ok);
      ConsumeGrammatical(txs, Returned(s, i, es, ok), pending);
  }

  lemma {:induction false} StepGrammatical(txs: seq<Task>, s: State, l: Label)
    requires Distinct(Hashes(txs)) && Grammatical(txs, s) && Single(s) && BenignLabel(l)
    ensures Grammatical(txs, Step(s, l)) && Single(Step(s, l))
  {
    forall h ensures Occurrences(Step(s, l), h) <= 1 {
      assert Occurrences(s, h) <= 1;
      StepKeepsOccurrences(s, l, h);
    }
    if l.Tick? {
      ConsumeGrammatical(txs, s, l.pending);
    } else if l.Work? && l.i < |s.live| {
      var w := s.live[l.i];
      ReactKeepsGrammar(w, s.monitored, l.input, s.logs[w.task.hash]);
      ApplyGrammatical(txs, s, l.i, React(w, s.monitored, l.input), l.pending);
    }
  }

  lemma {:induction false} ExecGrammatical(txs: seq<Task>, s: State, ls: seq<Label>)
    requires Distinct(Hashes(txs)) && Grammatical(txs, s) && Single(s) && AllBenign(ls)
    ensures Grammatical(txs, Exec(s, ls)) && Single(Exec(s, ls))
    decreases |ls|
  {
    if ls != [] {
      StepGrammatical(txs, s, ls[0]);
      ExecGrammatical(txs, Step(s, ls[0]), ls[1..]);
    }
  }

  lemma {:induction false} NewGrammatical(threshold: nat, monitored: bool, txs: seq<Task>)
    requires Distinct(Hashes(txs))
    ensures Grammatical(txs, New(threshold, monitored, txs)) && Single(New(threshold, monitored, txs))
  {
    DistinctIsSingle(threshold, monitored, txs);
    forall j | 0 <= j < |txs| ensures txs[j].hash in New(threshold, monitored, txs).logs {
      assert txs[j].hash == Hashes(txs)[j];
    }
  }

  /**
   * In every reachable state of a run over distinct hashes in which the monitor has answered only
   * `Ok` or mortal expiry, every log is a word of the grammar: empty while queued, fitting the
   * stage while live, complete and in agreement with the recorded result once finished.
   */
  lemma {:induction false} RunGrammatical(threshold: nat, monitored: bool, txs: seq<Task>, ls: seq<Label>)
    requires Distinct(Hashes(txs)) && AllBenign(ls)
    ensures Grammatical(txs, Run(threshold, monitored, txs, ls))
    ensures Single(Run(threshold, monitored, txs, ls))
  {
    NewGrammatical(threshold, monitored, txs);
    RefillGrammatical(txs, New(threshold, monitored, txs), threshold);
    ExecGrammatical(txs, Begin(threshold, monitored, txs), ls);
  }

  /** For watched tasks, `Done` means exactly that the in-pool string ends in `F`, and a letter of a
      terminal status can only be the last one. */
  lemma {:induction false} RunWatchedStrings(threshold: nat, monitored: bool, txs: seq<Task>, ls: seq<Label>, k: nat)
    requires Distinct(Hashes(txs)) && AllBenign(ls) && k < |txs| && txs[k].watched
    ensures var s := Run(threshold, monitored, txs, ls);
            var h := txs[k].hash;
            h in s.logs && (h in s.done || h in s.errors ==>
              var letters := InpoolEventsString(s.logs[h]);
              && (forall i :: 0 <= i < |letters| - 1 ==> letters[i] !in TERMINAL_LETTERS)
              && (h in s.done <==> letters != "" && letters[|letters| - 1] == 'F'))
  {
    RunGrammatical(threshold, monitored, txs, ls);
    var s := Run(threshold, monitored, txs, ls);
    SingleIsApart(s);
    var h := txs[k].hash;
    if h in s.done {
      WatchedInpoolString(txs[k], s.logs[h], true);
    } else if h in s.errors {
      WatchedInpoolString(txs[k], s.logs[h], false);
    }
  }

  // ---- The buffered count read off the logs ----

  /** The popped transactions without a submit result in their log. */
  ghost function PoppedUnanswered(s: State): set<Hash> {
    set h | h in Hashes(s.started) && h in s.logs && (forall e :: e in s.logs[h] ==> !IsAnswer(e))
  }

  ghost function UnansweredHashes(live: seq<Worker>): set<Hash> {
    if live == [] then {}
    else
      UnansweredHashes(live[..|live| - 1])
      + (if Unanswered(live[|live| - 1].stage) then {live[|live| - 1].task.hash} else {})
  }

  lemma {:induction false} UnansweredHashesMembers(live: seq<Worker>, h: Hash)
    ensures h in UnansweredHashes(live) <==>
            exists i :: 0 <= i < |live| && live[i].task.hash == h && Unanswered(live[i].stage)
  {
    if live != [] {
      var n := |live| - 1;
      UnansweredHashesMembers(live[..n], h);
      if h in UnansweredHashes(live[..n]) {
        var i :| 0 <= i < n && live[..n][i].task.hash == h && Unanswered(live[..n][i].stage);
        assert live[i].task.hash == h;
      }
    }
  }

  lemma {:induction false} UnansweredHashesSize(live: seq<Worker>)
    requires forall i, j :: 0 <= i < j < |live| ==> live[i].task.hash != live[j].task.hash
    ensures |UnansweredHashes(live)| == CountUnanswered(live)
  {
    if live != [] {
      var n := |live| - 1;
      UnansweredHashesSize(live[..n]);
      UnansweredHashesMembers(live[..n], live[n].task.hash);
    }
  }

  /** Whether a live worker has been answered shows in its log. */
  lemma {:induction false} LiveLogAnswer(task: Task, stage: Stage, log: seq<Event>)
    requires LiveLog(task, stage, log)
    ensures Unanswered(stage) <==> forall e :: e in log ==> !IsAnswer(e)
  {
    if stage.Streaming? || stage.Waiting? {
      assert log[2] in log;
      assert IsAnswer(log[2]) by {
        if stage.Streaming? {
          assert log[2] == log[..3][2];
        }
      }
    }
  }

  lemma {:induction false} StartedIsLiveOrFinished(txs: seq<Task>, s: State, h: Hash)
    requires Single(s) && InOrder(txs, s) && Distinct(Hashes(txs))
    requires Occurrences(s, h) == TaskCount(txs, h)
    ensures h in Hashes(s.started) <==>
            (exists i :: 0 <= i < |s.live| && s.live[i].task.hash == h) || h in s.done || h in s.errors
  {
    HashCountMember(s.done, h);
    HashCountMember(s.errors, h);
    TaskCountDistinct(txs, h);
    LiveCountMember(s.live, h);
    QueueCount(txs, s, h);
  }

  lemma {:induction false} LiveCountMember(live: seq<Worker>, h: Hash)
    ensures LiveCount(live, h) >= 1 <==> exists i :: 0 <= i < |live| && live[i].task.hash == h
  {
    if live != [] {
      var n := |live| - 1;
      LiveCountMember(live[..n], h);
      if LiveCount(live[..n], h) >= 1 {
        var i :| 0 <= i < n && live[..n][i].task.hash == h;
        assert live[i].task.hash == h;
      }
    }
  }

  /** A given hash is either still queued or started. */
  lemma {:induction false} QueueCount(txs: seq<Task>, s: State, h: Hash)
    requires InOrder(txs, s) && Distinct(Hashes(txs))
    ensures h in Hashes(s.started) <==> TaskCount(txs, h) == 1 && TaskCount(s.queue, h) == 0
  {
    TaskCountDistinct(txs, h);
    if h in Hashes(s.started) {
      StartedIsNotQueued(txs, s, h);
    }
    if TaskCount(txs, h) == 1 && TaskCount(s.queue, h) == 0 {
      var k :| 0 <= k < |txs| && txs[k].hash == h;
      if k < |s.queue| {
        TaskCountIndices(s.queue, k, k);
      } else {
        assert s.started[|txs| - 1 - k] == txs[k];
        assert Hashes(s.started)[|txs| - 1 - k] == h;
      }
    }
  }

  lemma {:induction false} StartedIsNotQueued(txs: seq<Task>, s: State, h: Hash)
    requires InOrder(txs, s) && Distinct(Hashes(txs)) && h in Hashes(s.started)
    ensures TaskCount(txs, h) >= 1 && TaskCount(s.queue, h) == 0
  {
    var hs := Hashes(txs);
    var j :| 0 <= j < |s.started| && Hashes(s.started)[j] == h;
    var k := |txs| - 1 - j;
    TaskCountIndices(txs, k, k);
    forall q | 0 <= q < |s.queue| ensures s.queue[q].hash != h {
      assert s.queue[q].hash == hs[q] && hs[q] != hs[k];
    }
    NoSuchTask(s.queue, h);
  }

  lemma {:induction false} NoSuchTask(tasks: seq<Task>, h: Hash)
    requires forall q :: 0 <= q < |tasks| ==> tasks[q].hash != h
    ensures TaskCount(tasks, h) == 0
  {
    if tasks != [] {
      NoSuchTask(tasks[..|tasks| - 1], h);
    }
  }

  /** `buffered` is the number of popped transactions whose log has no submit result. */
  lemma {:induction false} RunBufferedByLogs(threshold: nat, monitored: bool, txs: seq<Task>, ls: seq<Label>)
    requires Distinct(Hashes(txs)) && AllBenign(ls) && |txs| <= USIZE_MAX
    ensures var s := Run(threshold, monitored, txs, ls);
            Buffered(s.tally) == |PoppedUnanswered(s)|
  {
    var s := Run(threshold, monitored, txs, ls);
    RunBufferedExact(threshold, monitored, txs, ls);
    RunGrammatical(threshold, monitored, txs, ls);
    RunDispatchesInOrder(threshold, monitored, txs, ls);
    forall h ensures Occurrences(s, h) == TaskCount(txs, h) {
      RefillKeepsOccurrences(New(threshold, monitored, txs), threshold, h);
      ExecKeepsOccurrences(Begin(threshold, monitored, txs), ls, h);
    }
    UnansweredByLogs(txs, s);
  }

  lemma {:induction false} UnansweredByLogs(txs: seq<Task>, s: State)
    requires Grammatical(txs, s) && Single(s) && Distinct(Hashes(txs)) && InOrder(txs, s)
    requires forall h :: Occurrences(s, h) == TaskCount(txs, h)
    ensures |PoppedUnanswered(s)| == CountUnanswered(s.live)
  {
    SingleIsApart(s);
    UnansweredHashesSize(s.live);
    forall h ensures h in PoppedUnanswered(s) <==> h in UnansweredHashes(s.live) {
      assert Occurrences(s, h) == TaskCount(txs, h);
      UnansweredByLog(txs, s, h);
    }
    assert PoppedUnanswered(s) == UnansweredHashes(s.live);
  }

  lemma {:induction false} UnansweredByLog(txs: seq<Task>, s: State, h: Hash)
    requires Grammatical(txs, s) && Single(s) && Apart(s) && Distinct(Hashes(txs)) && InOrder(txs, s)
    requires Occurrences(s, h) == TaskCount(txs, h)
    ensures h in PoppedUnanswered(s) <==> h in UnansweredHashes(s.live)
  {
    StartedIsLiveOrFinished(txs, s, h);
    UnansweredHashesMembers(s.live, h);
    PoppedUnansweredMember(txs, s, h);
  }

  lemma {:induction false} PoppedUnansweredMember(txs: seq<Task>, s: State, h: Hash)
    requires Grammatical(txs, s) && Apart(s) && Distinct(Hashes(txs)) && InOrder(txs, s)
    requires h in Hashes(s.started) <==>
             (exists i :: 0 <= i < |s.live| && s.live[i].task.hash == h) || h in s.done || h in s.errors
    ensures h in PoppedUnanswered(s) <==>
            exists i :: 0 <= i < |s.live| && s.live[i].task.hash == h && Unanswered(s.live[i].stage)
  {
    if h in Hashes(s.started) {
      var j :| 0 <= j < |s.started| && Hashes(s.started)[j] == h;
      var k := |txs| - 1 - j;
      assert txs[k].hash == h;
      if h in s.done || h in s.errors {
        FinishedLogHasOneAnswer(txs[k], s.logs[h], h in s.done);
        assert s.logs[h][2] in s.logs[h];
      } else {
        var i :| 0 <= i < |s.live| && s.live[i].task.hash == h;
        LiveLogAnswer(s.live[i].task, s.live[i].stage, s.logs[h]);
      }
    }
  }

  /** No log ever holds two submit results. */
  lemma {:induction false} OneAnswerPerLog(txs: seq<Task>, s: State, k: nat)
    requires Grammatical(txs, s) && Single(s) && InOrder(txs, s) && Distinct(Hashes(txs)) && k < |txs|
    requires Occurrences(s, txs[k].hash) == TaskCount(txs, txs[k].hash)
    ensures var log := s.logs[txs[k].hash];
            forall i, j :: 0 <= i < j < |log| ==> !(IsAnswer(log[i]) && IsAnswer(log[j]))
  {
    var h := txs[k].hash;
    if h in s.done || h in s.errors {
      FinishedLogHasOneAnswer(txs[k], s.logs[h], h in s.done);
    } else if k < |s.queue| {
      assert s.logs[s.queue[k].hash] == [];
    } else {
      assert s.started[|txs| - 1 - k] == txs[k];
      assert Hashes(s.started)[|txs| - 1 - k] == h;
      StartedIsLiveOrFinished(txs, s, h);
      var i :| 0 <= i < |s.live| && s.live[i].task.hash == h;
      LiveLogOneAnswer(s.live[i].task, s.live[i].stage, s.logs[h]);
    }
  }

  lemma {:induction false} LiveLogOneAnswer(task: Task, stage: Stage, log: seq<Event>)
    requires LiveLog(task, stage, log)
    ensures forall i, j :: 0 <= i < j < |log| ==> !(IsAnswer(log[i]) && IsAnswer(log[j]))
  {
    if stage.Streaming? {
      assert log[0] == log[..3][0] && log[1] == log[..3][1];
    }
  }
}
