/**
 * Whole runs against the fake sink with distinct hashes: how many workers are in flight, that runs
 * end, and exactly when they drain the queue.
 */
module FakeRuns {
  import opened Transactions
  import opened ExecutionLog
  import opened TxTask
  import opened Scheduler
  import opened Budgeting
  import opened Throttle
  import opened Journals
  import opened FakeSink

  // ---- The pool invariant ----

  /** Where a live worker's transaction is. */
  ghost predicate WorkerFits(pool: set<Hash>, w: Worker) {
    match w.stage
    case Fresh => w.task.hash !in pool
    case Submitting => w.task.hash in pool
    case Streaming(seen) =>
      w.task.watched && w.task.hash in pool && seen <= |w.task.script| && NoTerminal(w.task.script[..seen])
    case Waiting => false
  }

  ghost predicate LiveFits(txs: seq<Task>, fs: FakeState) {
    forall i :: 0 <= i < |fs.runner.live| ==>
      fs.runner.live[i].task in txs && WorkerFits(fs.pool, fs.runner.live[i])
  }

  ghost predicate QueueFits(txs: seq<Task>, fs: FakeState) {
    forall j :: 0 <= j < |fs.runner.queue| ==>
      fs.runner.queue[j] in txs && fs.runner.queue[j].hash !in fs.pool
  }

  /** Finished transactions are out of the pool unless their stream leaked. */
  ghost predicate FinishedFits(txs: seq<Task>, fs: FakeState) {
    forall k :: 0 <= k < |txs| && (txs[k].hash in fs.runner.done || txs[k].hash in fs.runner.errors) ==>
      !Broken(txs[k]) && (txs[k].hash in fs.pool <==> Leaky(txs[k]))
  }

  ghost predicate PoolKnown(txs: seq<Task>, fs: FakeState) {
    forall h :: h in fs.pool ==> h in Hashes(txs)
  }

  ghost predicate PoolFits(txs: seq<Task>, fs: FakeState) {
    LiveFits(txs, fs) && QueueFits(txs, fs) && FinishedFits(txs, fs) && PoolKnown(txs, fs)
  }

  /** Everything known of a reachable state. */
  ghost predicate Sound(txs: seq<Task>, fs: FakeState) {
    && Valid(fs.runner)
    && Single(fs.runner)
    && Balanced(fs.runner)
    && InOrder(txs, fs.runner)
    && !fs.runner.monitored
    && (forall h :: Occurrences(fs.runner, h) == TaskCount(txs, h))
    && PoolFits(txs, fs)
  }

  lemma {:induction false} RefillPoolFits(txs: seq<Task>, fs: FakeState, budget: nat)
    requires Valid(fs.runner) && PoolFits(txs, fs)
    ensures PoolFits(txs, FakeState(Refill(fs.runner, budget), fs.pool))
    decreases |fs.runner.queue|
  {
    var s := fs.runner;
    if budget != 0 && s.queue != [] {
      var next := FakeState(StartNext(s), fs.pool);
      assert LiveFits(txs, next);
      assert QueueFits(txs, next);
      RefillPoolFits(txs, next, budget - 1);
    }
  }

  lemma {:induction false} ConsumePoolFits(txs: seq<Task>, s: State, pool: set<Hash>, pending: nat)
    requires Valid(s) && PoolFits(txs, FakeState(s, pool))
    ensures PoolFits(txs, FakeState(ConsumePending(s, pending), pool))
  {
    assert PoolFits(txs, FakeState(Sampled(s, pending), pool));
    RefillPoolFits(txs, FakeState(Sampled(s, pending), pool), Budget(s, pending));
  }

  /** What a poll does to the polled worker's own place. */
  ghost predicate PollFits(pool': set<Hash>, t: Task, r: Reaction) {
    match r
    case Ignored => false
    case Continues(e, next) => WorkerFits(pool', Worker(t, next))
    case Returns(es, ok) => !Broken(t) && (t.hash in pool' <==> Leaky(t))
  }

  lemma {:induction false} AnswerFits(pool: set<Hash>, w: Worker)
    requires WorkerFits(pool, w) && Answer(w).Some?
    ensures PollFits(PoolAfter(pool, w), w.task, React(w, false, Answer(w).value))
    ensures forall h :: h != w.task.hash ==> (h in PoolAfter(pool, w) <==> h in pool)
  {
    if w.stage.Streaming? {
      var seen, script := w.stage.seen, w.task.script;
      if seen < |script| {
        TerminalStatuses(script[seen]);
        if script[seen].IsTerminal() {
          assert !NoTerminal(script);
        } else {
          assert script[..seen + 1] == script[..seen] + [script[seen]];
        }
      } else {
        assert script[..seen] == script;
      }
    }
  }

  lemma {:induction false} AdvancedPoolFits(txs: seq<Task>, fs: FakeState, i: nat, e: Event, next: Stage,
                                            pool': set<Hash>)
    requires Sound(txs, fs) && i < |fs.runner.live|
    requires WorkerFits(pool', Worker(fs.runner.live[i].task, next))
    requires forall h :: h != fs.runner.live[i].task.hash ==> (h in pool' <==> h in fs.pool)
    ensures PoolFits(txs, FakeState(Advanced(fs.runner, i, e, next), pool'))
  {
    var s, fs' := fs.runner, FakeState(Advanced(fs.runner, i, e, next), pool');
    SingleIsApart(s);
    HashKnown(txs, s.live[i].task);
    assert LiveFits(txs, fs');
    assert FinishedFits(txs, fs');
  }

  lemma {:induction false} HashKnown(txs: seq<Task>, t: Task)
    requires t in txs
    ensures t.hash in Hashes(txs)
  {
    var k :| 0 <= k < |txs| && txs[k] == t;
    assert Hashes(txs)[k] == t.hash;
  }

  lemma {:induction false} ReturnedPoolFits(txs: seq<Task>, fs: FakeState, i: nat, es: seq<Event>, ok: bool,
                                            pool': set<Hash>)
    requires Distinct(Hashes(txs)) && Sound(txs, fs) && i < |fs.runner.live|
    requires var t := fs.runner.live[i].task; !Broken(t) && (t.hash in pool' <==> Leaky(t))
    requires forall h :: h != fs.runner.live[i].task.hash ==> (h in pool' <==> h in fs.pool)
    ensures PoolFits(txs, FakeState(Returned(fs.runner, i, es, ok), pool'))
  {
    var s, fs' := fs.runner, FakeState(Returned(fs.runner, i, es, ok), pool');
    SingleIsApart(s);
    HashKnown(txs, s.live[i].task);
    forall k | 0 <= k < |txs| && txs[k].hash == s.live[i].task.hash ensures txs[k] == s.live[i].task {
      SameHashSameTask(txs, k, s.live[i].task);
    }
    assert LiveFits(txs, fs');
    assert FinishedFits(txs, fs');
  }

  lemma {:induction false} PollPoolFits(txs: seq<Task>, fs: FakeState, i: nat)
    requires Distinct(Hashes(txs)) && Sound(txs, fs) && fs.runner.phase.Running? && i < |fs.runner.live|
    ensures PoolFits(txs, FakeStep(fs, Poll(i)))
  {
    var s, w := fs.runner, fs.runner.live[i];
    var pool' := PoolAfter(fs.pool, w);
    if Answer(w).Some? {
      AnswerFits(fs.pool, w);
      ApplyPoolFits(txs, fs, i, React(w, false, Answer(w).value), pool');
    }
  }

  lemma {:induction false} ApplyPoolFits(txs: seq<Task>, fs: FakeState, i: nat, r: Reaction, pool': set<Hash>)
    requires Distinct(Hashes(txs)) && Sound(txs, fs) && i < |fs.runner.live|
    requires PollFits(pool', fs.runner.live[i].task, r)
    requires forall h :: h != fs.runner.live[i].task.hash ==> (h in pool' <==> h in fs.pool)
    ensures PoolFits(txs, FakeState(Apply(fs.runner, i, r, |pool'|), pool'))
  {
    match r
    case Continues(e, next) => AdvancedPoolFits(txs, fs, i, e, next, pool');
    case Returns(es, ok) =>
      ReturnedPoolFits(txs, fs, i, es, ok, pool');
      ConsumePoolFits(txs, Returned(fs.runner, i, es, ok), pool', |pool'|);
  }

  lemma {:induction false} FakeStepSound(txs: seq<Task>, fs: FakeState, l: FakeLabel)
    requires Distinct(Hashes(txs)) && Sound(txs, fs)
    ensures Sound(txs, FakeStep(fs, l))
  {
    var s, c := fs.runner, Concrete(fs, l);
    ConcreteIsBenign(fs, l);
    forall h ensures Occurrences(Step(s, c), h) == TaskCount(txs, h) && Occurrences(Step(s, c), h) <= 1 {
      assert Occurrences(s, h) == TaskCount(txs, h) && Occurrences(s, h) <= 1;
      StepKeepsOccurrences(s, c, h);
    }
    StepBalances(s, c, 0);
    StepKeepsOrder(txs, s, c);
    StepKeepsThreshold(s, c);
    FakeStepPoolFits(txs, fs, l);
  }

  lemma {:induction false} FakeStepPoolFits(txs: seq<Task>, fs: FakeState, l: FakeLabel)
    requires Distinct(Hashes(txs)) && Sound(txs, fs)
    ensures PoolFits(txs, FakeStep(fs, l))
  {
    if !fs.runner.phase.Running? {
    } else if l.Poll? && l.i < |fs.runner.live| {
      PollPoolFits(txs, fs, l.i);
    } else if l.Timer? {
      ConsumePoolFits(txs, fs.runner, fs.pool, |fs.pool|);
    }
  }

  lemma {:induction false} FakeExecSound(txs: seq<Task>, fs: FakeState, ls: seq<FakeLabel>)
    requires Distinct(Hashes(txs)) && Sound(txs, fs)
    ensures Sound(txs, FakeExec(fs, ls))
    decreases |ls|
  {
    if ls != [] {
      FakeStepSound(txs, fs, ls[0]);
      FakeExecSound(txs, FakeStep(fs, ls[0]), ls[1..]);
    }
  }

  lemma {:induction false} FakeBeginSound(threshold: nat, txs: seq<Task>)
    requires Distinct(Hashes(txs))
    ensures Sound(txs, FakeBegin(threshold, txs))
  {
    var s := New(threshold, false, txs);
    DistinctIsSingle(threshold, false, txs);
    forall h ensures Occurrences(Refill(s, threshold), h) == TaskCount(txs, h) && TaskCount(txs, h) <= 1 {
      assert Occurrences(s, h) <= 1;
      RefillKeepsOccurrences(s, threshold, h);
    }
    RefillBalances(s, threshold, 0);
    RefillKeepsOrder(txs, s, threshold);
    RefillFrame(s, threshold);
    RefillPoolFits(txs, FakeState(s, {}), threshold);
  }

  // ---- Counting the pool ----

  ghost function LiveSet(live: seq<Worker>): set<Hash> {
    if live == [] then {} else LiveSet(live[..|live| - 1]) + {live[|live| - 1].task.hash}
  }

  lemma {:induction false} LiveSetMembers(live: seq<Worker>, h: Hash)
    ensures h in LiveSet(live) <==> exists i :: 0 <= i < |live| && live[i].task.hash == h
  {
    if live != [] {
      var n := |live| - 1;
      LiveSetMembers(live[..n], h);
      if h in LiveSet(live[..n]) {
        var i :| 0 <= i < n && live[..n][i].task.hash == h;
        assert live[i].task.hash == h;
      }
    }
  }

  lemma {:induction false} LiveSetSize(live: seq<Worker>)
    requires forall i, j :: 0 <= i < j < |live| ==> live[i].task.hash != live[j].task.hash
    ensures |LiveSet(live)| == |live|
  {
    if live != [] {
      var n := |live| - 1;
      LiveSetSize(live[..n]);
      LiveSetMembers(live[..n], live[n].task.hash);
    }
  }

  lemma {:induction false} SubsetSize<T>(a: set<T>, b: set<T>)
    requires a <= b
    ensures |a| <= |b|
  {
    assert b == a + (b - a);
  }

  /** Every live worker is unanswered or in the pool (some are both). */
  lemma {:induction false} LiveBound(txs: seq<Task>, fs: FakeState)
    requires Sound(txs, fs)
    ensures |fs.runner.live| <= CountUnanswered(fs.runner.live) + |fs.pool|
  {
    var live := fs.runner.live;
    SingleIsApart(fs.runner);
    LiveSetSize(live);
    UnansweredHashesSize(live);
    forall h | h in LiveSet(live) ensures h in UnansweredHashes(live) + fs.pool {
      LiveSetMembers(live, h);
      UnansweredHashesMembers(live, h);
      var i :| 0 <= i < |live| && live[i].task.hash == h;
      assert WorkerFits(fs.pool, live[i]);
    }
    SubsetSize(LiveSet(live), UnansweredHashes(live) + fs.pool);
  }

  lemma {:induction false} ReturnedSound(txs: seq<Task>, fs: FakeState, i: nat, es: seq<Event>, ok: bool,
                                         pool': set<Hash>)
    requires Distinct(Hashes(txs)) && Sound(txs, fs) && i < |fs.runner.live|
    requires Answer(fs.runner.live[i]).Some?
    requires Returns(es, ok) == React(fs.runner.live[i], false, Answer(fs.runner.live[i]).value)
    requires PollFits(pool', fs.runner.live[i].task, Returns(es, ok))
    requires forall h :: h != fs.runner.live[i].task.hash ==> (h in pool' <==> h in fs.pool)
    ensures Sound(txs, FakeState(Returned(fs.runner, i, es, ok), pool'))
  {
    var s := fs.runner;
    forall h ensures Occurrences(Returned(s, i, es, ok), h) == TaskCount(txs, h) && TaskCount(txs, h) <= 1 {
      assert Occurrences(s, h) == TaskCount(txs, h) && Occurrences(s, h) <= 1;
      ReturnedKeepsOccurrences(s, i, es, ok, h);
    }
    ReactAnswers(s.live[i], false, Answer(s.live[i]).value);
    ReturnedBalances(s, i, es, ok, 0, 0);
    ReturnedPoolFits(txs, fs, i, es, ok, pool');
  }

  // ---- The workers in flight ----

  /** The scheduler's branches of a run are those of its fronts. */
  lemma {:induction false} ConcretesPrefix(fs: FakeState, ls: seq<FakeLabel>, n: nat)
    requires Valid(fs.runner) && n <= |ls|
    ensures |Concretes(fs, ls)| == |ls|
    ensures Concretes(fs, ls)[..n] == Concretes(fs, ls[..n])
    ensures n < |ls| ==> Concretes(fs, ls)[n] == Concrete(FakeExec(fs, ls[..n]), ls[n])
    decreases |ls|
  {
    if ls != [] {
      var rest := Concretes(FakeStep(fs, ls[0]), ls[1..]);
      if n == 0 {
        ConcretesPrefix(FakeStep(fs, ls[0]), ls[1..], 0);
      } else {
        ConcretesPrefix(FakeStep(fs, ls[0]), ls[1..], n - 1);
        assert ls[..n][1..] == ls[1..][..n - 1];
        assert ([Concrete(fs, ls[0])] + rest)[..n] == [Concrete(fs, ls[0])] + rest[..n - 1];
      }
    }
  }

  /**
   * For any batch, shared hashes included: a run against the fake sink keeps within the threshold at
   * every point if and only if, at every refill, the workers are no more than the unanswered ones
   * and the pool together, or the queue is too short to matter.
   */
  lemma {:induction false} FakeRunBoundedIff(threshold: nat, txs: seq<Task>, ls: seq<FakeLabel>)
    requires |txs| <= USIZE_MAX
    ensures var branches := Concretes(FakeBegin(threshold, txs), ls);
            BoundedThroughout(Begin(threshold, false, txs), branches)
            <==> CountedThroughout(Begin(threshold, false, txs), branches)
  {
    FakeRunsAreRuns(FakeBegin(threshold, txs), ls);
    BenignRunBoundedIff(threshold, false, txs, Concretes(FakeBegin(threshold, txs), ls));
  }

  /** With distinct hashes every refill is covered. */
  lemma {:induction false} SoundStepCounted(txs: seq<Task>, fs: FakeState, l: FakeLabel)
    requires Distinct(Hashes(txs)) && Sound(txs, fs)
    ensures StepCounted(fs.runner, Concrete(fs, l))
  {
    if l.Timer? {
      LiveBound(txs, fs);
    } else if l.Poll? && l.i < |fs.runner.live| && Answer(fs.runner.live[l.i]).Some? {
      var w := fs.runner.live[l.i];
      var r := React(w, false, Answer(w).value);
      AnswerFits(fs.pool, w);
      if r.Returns? {
        ReturnedSound(txs, fs, l.i, r.events, r.ok, PoolAfter(fs.pool, w));
        LiveBound(txs, FakeState(Returned(fs.runner, l.i, r.events, r.ok), PoolAfter(fs.pool, w)));
      }
    }
  }

  /**
   * In every reachable state of every run against the fake sink over distinct hashes, the live
   * workers never exceed the send threshold.
   */
  lemma {:induction false} FakeRunInFlight(threshold: nat, txs: seq<Task>, ls: seq<FakeLabel>)
    requires Distinct(Hashes(txs)) && |txs| <= USIZE_MAX
    ensures |FakeRun(threshold, txs, ls).runner.live| <= threshold
  {
    var fs := FakeBegin(threshold, txs);
    var branches := Concretes(fs, ls);
    ConcretesPrefix(fs, ls, 0);
    forall n | 0 <= n < |branches| ensures StepCounted(Exec(fs.runner, branches[..n]), branches[n]) {
      ConcretesPrefix(fs, ls, n);
      FakeRunsAreRuns(fs, ls[..n]);
      FakeBeginSound(threshold, txs);
      FakeExecSound(txs, fs, ls[..n]);
      SoundStepCounted(txs, FakeExec(fs, ls[..n]), ls[n]);
    }
    FakeRunBoundedIff(threshold, txs, ls);
    FakeRunsAreRuns(fs, ls);
    RefillFrame(New(threshold, false, txs), threshold);
    assert branches[..|branches|] == branches;
    assert |Exec(fs.runner, branches[..|branches|]).live| <= threshold;
  }
}
