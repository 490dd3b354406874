/**
 * Runs against the fake sink end, and they drain the queue exactly when fewer than `threshold` of
 * the tasks ahead of the last one leak their place in the pool.
 */
module FakeCompletion {
  import opened Transactions
  import opened ExecutionLog
  import opened TxTask
  import opened Scheduler
  import opened Budgeting
  import opened Journals
  import opened FakeSink
  import opened FakeRuns

  // ---- Termination ----

  function TaskWork(t: Task): nat {
    3 + |t.script|
  }

  /** An upper bound on the polls a worker still needs. */
  function WorkerWork(w: Worker): nat {
    match w.stage
    case Fresh => TaskWork(w.task)
    case Submitting => 2 + |w.task.script|
    case Streaming(seen) => 1 + SaturatingSub(|w.task.script|, seen)
    case Waiting => 1
  }

  function QueueWork(queue: seq<Task>): nat {
    if queue == [] then 0 else QueueWork(queue[..|queue| - 1]) + TaskWork(queue[|queue| - 1])
  }

  function LiveWork(live: seq<Worker>): nat {
    if live == [] then 0 else LiveWork(live[..|live| - 1]) + WorkerWork(live[|live| - 1])
  }

  function Measure(s: State): nat {
    if s.phase.Running? then 1 + QueueWork(s.queue) + LiveWork(s.live) else 0
  }

  lemma {:induction false} LiveWorkAppend(live: seq<Worker>, w: Worker)
    ensures LiveWork(live + [w]) == LiveWork(live) + WorkerWork(w)
  {
    assert (live + [w])[..|live|] == live;
  }

  lemma {:induction false} LiveWorkUpdate(live: seq<Worker>, i: nat, w: Worker)
    requires i < |live|
    ensures LiveWork(live[i := w]) + WorkerWork(live[i]) == LiveWork(live) + WorkerWork(w)
    ensures LiveWork(Without(live, i)) + WorkerWork(live[i]) == LiveWork(live)
  {
    var n := |live| - 1;
    if i == n {
      assert live[i := w][..n] == live[..n] && Without(live, i) == live[..n];
    } else {
      LiveWorkUpdate(live[..n], i, w);
      assert live[i := w][..n] == live[..n][i := w];
      assert Without(live, i) == Without(live[..n], i) + [live[n]];
      LiveWorkAppend(Without(live[..n], i), live[n]);
    }
  }

  lemma {:induction false} RefillMeasure(s: State, budget: nat)
    requires Valid(s)
    ensures Measure(Refill(s, budget)) == Measure(s)
    decreases |s.queue|
  {
    if budget != 0 && s.queue != [] {
      LiveWorkAppend(s.live, Worker(s.queue[|s.queue| - 1], Fresh));
      RefillMeasure(StartNext(s), budget - 1);
    }
  }

  /** The reaction brings the worker closer to its end. */
  ghost predicate Shrinks(w: Worker, r: Reaction) {
    match r
    case Ignored => false
    case Continues(e, next) => WorkerWork(Worker(w.task, next)) < WorkerWork(w)
    case Returns(es, ok) => true
  }

  lemma {:induction false} ApplyMeasure(s: State, i: nat, r: Reaction, pending: nat)
    requires Valid(s) && s.phase.Running? && i < |s.live| && Shrinks(s.live[i], r)
    ensures Measure(Apply(s, i, r, pending)) < Measure(s)
  {
    match r
    case Continues(e, next) => LiveWorkUpdate(s.live, i, Worker(s.live[i].task, next));
    case Returns(es, ok) =>
      var s1 := Returned(s, i, es, ok);
      LiveWorkUpdate(s.live, i, s.live[i]);
      RefillMeasure(Sampled(s1, pending), Budget(s1, pending));
  }

  /** A select branch that is really taken and is not the timer. */
  predicate Effective(fs: FakeState, l: FakeLabel) {
    fs.runner.phase.Running?
    && match l
       case Poll(i) => i < |fs.runner.live|
       case Timer => false
       case Idle => fs.runner.live == []
       case StopRequest => true
       case Deadline => true
  }

  lemma {:induction false} FakeStepMeasure(txs: seq<Task>, fs: FakeState, l: FakeLabel)
    requires Sound(txs, fs)
    ensures Measure(FakeStep(fs, l).runner) + (if Effective(fs, l) then 1 else 0) <= Measure(fs.runner)
  {
    if !fs.runner.phase.Running? {
    } else if l.Timer? {
      RefillMeasure(Sampled(fs.runner, |fs.pool|), Budget(fs.runner, |fs.pool|));
    } else if l.Poll? && l.i < |fs.runner.live| && Answer(fs.runner.live[l.i]).Some? {
      var w := fs.runner.live[l.i];
      AnswerShrinks(fs.pool, w);
      ApplyMeasure(fs.runner, l.i, React(w, false, Answer(w).value), |PoolAfter(fs.pool, w)|);
    }
  }

  lemma {:induction false} AnswerShrinks(pool: set<Hash>, w: Worker)
    requires WorkerFits(pool, w) && Answer(w).Some?
    ensures Shrinks(w, React(w, false, Answer(w).value))
  {
  }

  function EffectiveSteps(fs: FakeState, ls: seq<FakeLabel>): nat
    requires Valid(fs.runner)
    decreases |ls|
  {
    if ls == [] then 0
    else (if Effective(fs, ls[0]) then 1 else 0) + EffectiveSteps(FakeStep(fs, ls[0]), ls[1..])
  }

  lemma {:induction false} FakeExecMeasure(txs: seq<Task>, fs: FakeState, ls: seq<FakeLabel>)
    requires Distinct(Hashes(txs)) && Sound(txs, fs)
    ensures EffectiveSteps(fs, ls) + Measure(FakeExec(fs, ls).runner) <= Measure(fs.runner)
    decreases |ls|
  {
    if ls != [] {
      FakeStepMeasure(txs, fs, ls[0]);
      FakeStepSound(txs, fs, ls[0]);
      FakeExecMeasure(txs, FakeStep(fs, ls[0]), ls[1..]);
    }
  }

  /** No run takes more than this many branches other than the timer, however they interleave. */
  lemma {:induction false} FakeRunTerminates(threshold: nat, txs: seq<Task>, ls: seq<FakeLabel>)
    requires Distinct(Hashes(txs))
    ensures EffectiveSteps(FakeBegin(threshold, txs), ls) <= 1 + QueueWork(txs)
  {
    FakeBeginSound(threshold, txs);
    FakeExecMeasure(txs, FakeBegin(threshold, txs), ls);
    RefillMeasure(New(threshold, false, txs), threshold);
  }

  predicate Uninterrupted(ls: seq<FakeLabel>) {
    forall i :: 0 <= i < |ls| ==> !ls[i].StopRequest? && !ls[i].Deadline?
  }

  /** While the run has not ended, a poll or the idle branch can be taken; taking them as they come
      ends the run. */
  lemma {:induction false} RunsCanEnd(txs: seq<Task>, fs: FakeState) returns (ls: seq<FakeLabel>)
    requires Distinct(Hashes(txs)) && Sound(txs, fs)
    ensures Uninterrupted(ls) && !FakeExec(fs, ls).runner.phase.Running?
    decreases Measure(fs.runner)
  {
    if !fs.runner.phase.Running? {
      return [];
    }
    var l := if fs.runner.live == [] then Idle else Poll(0);
    FakeStepMeasure(txs, fs, l);
    FakeStepSound(txs, fs, l);
    var rest := RunsCanEnd(txs, FakeStep(fs, l));
    ls := [l] + rest;
    assert ls[1..] == rest;
  }

  /** From every reachable state the run can end without being interrupted. */
  lemma {:induction false} FakeRunCanEnd(threshold: nat, txs: seq<Task>, ls: seq<FakeLabel>)
    requires Distinct(Hashes(txs))
    ensures exists more :: Uninterrupted(more) && !FakeExec(FakeRun(threshold, txs, ls), more).runner.phase.Running?
  {
    FakeBeginSound(threshold, txs);
    FakeExecSound(txs, FakeBegin(threshold, txs), ls);
    var more := RunsCanEnd(txs, FakeRun(threshold, txs, ls));
  }

  // ---- Which runs drain the queue ----

  function LeakyCount(tasks: seq<Task>): nat {
    if tasks == [] then 0
    else LeakyCount(tasks[..|tasks| - 1]) + (if Leaky(tasks[|tasks| - 1]) then 1 else 0)
  }

  /** A condition on the batch alone. `txs[0]` is the task dispatched last. */
  predicate Drainable(threshold: nat, txs: seq<Task>) {
    && (forall i :: 0 <= i < |txs| ==> !Broken(txs[i]))
    && (txs == [] || LeakyCount(txs[1..]) < threshold)
  }

  function LeakySet(tasks: seq<Task>): set<Hash> {
    if tasks == [] then {}
    else
      var n := |tasks| - 1;
      LeakySet(tasks[..n]) + (if Leaky(tasks[n]) then {tasks[n].hash} else {})
  }

  lemma {:induction false} LeakySetMembers(tasks: seq<Task>, h: Hash)
    ensures h in LeakySet(tasks) <==> exists j :: 0 <= j < |tasks| && Leaky(tasks[j]) && tasks[j].hash == h
  {
    if tasks != [] {
      var n := |tasks| - 1;
      LeakySetMembers(tasks[..n], h);
      if h in LeakySet(tasks[..n]) {
        var j :| 0 <= j < n && Leaky(tasks[..n][j]) && tasks[..n][j].hash == h;
        assert tasks[j].hash == h;
      }
    }
  }

  lemma {:induction false} LeakySetSize(tasks: seq<Task>)
    requires forall i, j :: 0 <= i < j < |tasks| ==> tasks[i].hash != tasks[j].hash
    ensures |LeakySet(tasks)| == LeakyCount(tasks)
  {
    if tasks != [] {
      var n := |tasks| - 1;
      LeakySetSize(tasks[..n]);
      LeakySetMembers(tasks[..n], tasks[n].hash);
    }
  }

  lemma {:induction false} AtMostAsMany(hs: seq<Hash>)
    ensures |set h | h in hs| <= |hs|
  {
    if hs == [] {
      assert (set h | h in hs) == {};
    } else {
      var n := |hs| - 1;
      AtMostAsMany(hs[..n]);
      assert (set h | h in hs) == (set h | h in hs[..n]) + {hs[n]} by {
        assert hs == hs[..n] + [hs[n]];
      }
    }
  }

  lemma {:induction false} TailDistinct(txs: seq<Task>)
    requires Distinct(Hashes(txs)) && txs != []
    ensures Distinct(Hashes(txs[1..]))
  {
    var hs := Hashes(txs);
    forall i, j | 0 <= i < j < |txs| - 1 ensures Hashes(txs[1..])[i] != Hashes(txs[1..])[j] {
      assert hs[i + 1] != hs[j + 1];
    }
  }

  /** Task `k` has been popped: it is live or its result is recorded. */
  lemma {:induction false} PoppedIsLiveOrFinished(txs: seq<Task>, fs: FakeState, k: nat)
    requires Distinct(Hashes(txs)) && Sound(txs, fs) && |fs.runner.queue| <= k < |txs|
    ensures var s, h := fs.runner, txs[k].hash;
            (exists i :: 0 <= i < |s.live| && s.live[i].task.hash == h) || h in s.done || h in s.errors
  {
    var s := fs.runner;
    StartedIsLiveOrFinished(txs, s, txs[k].hash);
    assert s.started[|txs| - 1 - k] == txs[k];
    assert Hashes(s.started)[|txs| - 1 - k] == txs[k].hash;
  }

  /** Without workers, only leaks are left in the pool. */
  lemma {:induction false} IdlePool(txs: seq<Task>, fs: FakeState)
    requires Distinct(Hashes(txs)) && Sound(txs, fs) && fs.runner.live == [] && fs.runner.queue != []
    ensures |fs.pool| <= LeakyCount(txs[1..])
  {
    var s := fs.runner;
    forall h | h in fs.pool ensures h in LeakySet(txs[1..]) {
      var k :| 0 <= k < |txs| && Hashes(txs)[k] == h;
      assert forall q :: 0 <= q < |s.queue| ==> txs[q] == s.queue[q] && txs[q].hash !in fs.pool;
      PoppedIsLiveOrFinished(txs, fs, k);
      assert txs[1..][k - 1] == txs[k];
      LeakySetMembers(txs[1..], h);
    }
    SubsetSize(fs.pool, LeakySet(txs[1..]));
    TailDistinct(txs);
    LeakySetSize(txs[1..]);
  }

  /** A drainable batch never leaves the runner idle with tasks queued. */
  ghost predicate NeverIdle(fs: FakeState) {
    fs.runner.live == [] ==> fs.runner.queue == []
  }

  lemma {:induction false} ConsumeNeverIdle(txs: seq<Task>, fs: FakeState)
    requires Distinct(Hashes(txs)) && Sound(txs, fs) && |txs| <= USIZE_MAX
    requires Drainable(fs.runner.threshold, txs)
    ensures var s := ConsumePending(fs.runner, |fs.pool|); s.live == [] ==> s.queue == []
  {
    var s := fs.runner;
    RefillFrame(Sampled(s, |fs.pool|), Budget(s, |fs.pool|));
    if s.live == [] && s.queue != [] {
      IdlePool(txs, fs);
      BalancedIsExact(s);
    }
  }

  /** Tasks ahead of the last one that leak are in the pool, unanswered or still queued. */
  lemma {:induction false} LeaksAreHeld(txs: seq<Task>, fs: FakeState)
    requires Distinct(Hashes(txs)) && Sound(txs, fs) && fs.runner.queue != []
    ensures LeakyCount(txs[1..]) <= |fs.pool| + CountUnanswered(fs.runner.live) + |fs.runner.queue| - 1
  {
    var s := fs.runner;
    var waiting := set h | h in Hashes(s.queue[1..]);
    SingleIsApart(s);
    UnansweredHashesSize(s.live);
    AtMostAsMany(Hashes(s.queue[1..]));
    forall h | h in LeakySet(txs[1..]) ensures h in fs.pool + UnansweredHashes(s.live) + waiting {
      LeakySetMembers(txs[1..], h);
      var j :| 0 <= j < |txs| - 1 && Leaky(txs[1..][j]) && txs[1..][j].hash == h;
      LeakIsHeld(txs, fs, j + 1);
    }
    SubsetSize(LeakySet(txs[1..]), fs.pool + UnansweredHashes(s.live) + waiting);
    TailDistinct(txs);
    LeakySetSize(txs[1..]);
  }

  lemma {:induction false} LeakIsHeld(txs: seq<Task>, fs: FakeState, k: nat)
    requires Distinct(Hashes(txs)) && Sound(txs, fs) && 0 < k < |txs| && Leaky(txs[k])
    ensures var h, s := txs[k].hash, fs.runner;
            h in fs.pool || h in UnansweredHashes(s.live) || h in Hashes(s.queue[if s.queue == [] then 0 else 1..])
  {
    var h, s := txs[k].hash, fs.runner;
    if k < |s.queue| {
      assert s.queue[k] == txs[k];
      assert Hashes(s.queue[1..])[k - 1] == h;
    } else {
      PoppedIsLiveOrFinished(txs, fs, k);
      if h !in s.done && h !in s.errors {
        var i :| 0 <= i < |s.live| && s.live[i].task.hash == h;
        assert WorkerFits(fs.pool, s.live[i]);
        UnansweredHashesMembers(s.live, h);
      }
    }
  }

  /** A batch with too many leaks never empties the queue. */
  lemma {:induction false} ConsumeKeepsQueue(txs: seq<Task>, fs: FakeState)
    requires Distinct(Hashes(txs)) && Sound(txs, fs) && |txs| <= USIZE_MAX && fs.runner.queue != []
    requires LeakyCount(txs[1..]) >= fs.runner.threshold
    ensures ConsumePending(fs.runner, |fs.pool|).queue != []
  {
    var s := fs.runner;
    RefillFrame(Sampled(s, |fs.pool|), Budget(s, |fs.pool|));
    BalancedIsExact(s);
    LeaksAreHeld(txs, fs);
    LeakyCountBound(txs[1..]);
  }

  lemma {:induction false} LeakyCountBound(tasks: seq<Task>)
    ensures LeakyCount(tasks) <= |tasks|
  {
    if tasks != [] {
      LeakyCountBound(tasks[..|tasks| - 1]);
    }
  }

  /** What the rest of a run keeps, for a drainable batch and for one that is not. */
  ghost predicate OnCourse(threshold: nat, txs: seq<Task>, fs: FakeState) {
    && Sound(txs, fs)
    && fs.runner.threshold == threshold
    && (fs.runner.phase.Running? || (fs.runner.phase.AllFuturesDone? && fs.runner.live == [])
         || fs.runner.phase.Panicked?)
    && (Drainable(threshold, txs) ==> NeverIdle(fs) && !fs.runner.phase.Panicked?)
    && (txs != [] && LeakyCount(txs[1..]) >= threshold ==> fs.runner.queue != [])
  }

  lemma {:induction false} ApplyOnCourse(txs: seq<Task>, fs: FakeState, i: nat, r: Reaction, pool': set<Hash>)
    requires Distinct(Hashes(txs)) && Sound(txs, fs) && i < |fs.runner.live| && |txs| <= USIZE_MAX
    requires Answer(fs.runner.live[i]).Some?
    requires r == React(fs.runner.live[i], false, Answer(fs.runner.live[i]).value)
         && PollFits(pool', fs.runner.live[i].task, r)
    requires forall h :: h != fs.runner.live[i].task.hash ==> (h in pool' <==> h in fs.pool)
    ensures var s' := Apply(fs.runner, i, r, |pool'|);
            && (Drainable(fs.runner.threshold, txs) && s'.live == [] ==> s'.queue == [])
            && (fs.runner.queue != [] && LeakyCount(txs[1..]) >= fs.runner.threshold ==> s'.queue != [])
  {
    if r.Returns? {
      ReturnedSound(txs, fs, i, r.events, r.ok, pool');
      var fs1 := FakeState(Returned(fs.runner, i, r.events, r.ok), pool');
      if Drainable(fs.runner.threshold, txs) {
        ConsumeNeverIdle(txs, fs1);
      }
      if fs.runner.queue != [] && LeakyCount(txs[1..]) >= fs.runner.threshold {
        ConsumeKeepsQueue(txs, fs1);
      }
    }
  }

  lemma {:induction false} FakeStepOnCourse(threshold: nat, txs: seq<Task>, fs: FakeState, l: FakeLabel)
    requires Distinct(Hashes(txs)) && |txs| <= USIZE_MAX && OnCourse(threshold, txs, fs)
    requires !l.StopRequest? && !l.Deadline?
    ensures OnCourse(threshold, txs, FakeStep(fs, l))
  {
    FakeStepSound(txs, fs, l);
    StepKeepsThreshold(fs.runner, Concrete(fs, l));
    if !fs.runner.phase.Running? {
    } else if l.Timer? {
      if Drainable(threshold, txs) {
        ConsumeNeverIdle(txs, fs);
      }
      if fs.runner.queue != [] && LeakyCount(txs[1..]) >= threshold {
        ConsumeKeepsQueue(txs, fs);
      }
    } else if l.Poll? && l.i < |fs.runner.live| {
      var w := fs.runner.live[l.i];
      assert w.task in txs;
      if Answer(w).Some? {
        AnswerFits(fs.pool, w);
        ApplyOnCourse(txs, fs, l.i, React(w, false, Answer(w).value), PoolAfter(fs.pool, w));
      }
    }
  }

  lemma {:induction false} FakeExecOnCourse(threshold: nat, txs: seq<Task>, fs: FakeState, ls: seq<FakeLabel>)
    requires Distinct(Hashes(txs)) && |txs| <= USIZE_MAX && OnCourse(threshold, txs, fs) && Uninterrupted(ls)
    ensures OnCourse(threshold, txs, FakeExec(fs, ls))
    decreases |ls|
  {
    if ls != [] {
      FakeStepOnCourse(threshold, txs, fs, ls[0]);
      FakeExecOnCourse(threshold, txs, FakeStep(fs, ls[0]), ls[1..]);
    }
  }

  lemma {:induction false} FakeBeginOnCourse(threshold: nat, txs: seq<Task>)
    requires Distinct(Hashes(txs)) && |txs| <= USIZE_MAX
    ensures OnCourse(threshold, txs, FakeBegin(threshold, txs))
  {
    FakeBeginSound(threshold, txs);
    RefillFrame(New(threshold, false, txs), threshold);
    if txs != [] {
      LeakyCountBound(txs[1..]);
    }
  }

  /**
   * A run against the fake sink over distinct hashes that has ended without stop or timeout ended
   * through "all futures done" with an empty queue if and only if the batch is drainable: no
   * unwatched submission panics, and of the tasks ahead of the last dispatched one fewer than
   * `threshold` are watched tasks whose stream has no terminal status.
   */
  lemma {:induction false} FakeRunDrainsIff(threshold: nat, txs: seq<Task>, ls: seq<FakeLabel>)
    requires Distinct(Hashes(txs)) && |txs| <= USIZE_MAX && Uninterrupted(ls)
    requires !FakeRun(threshold, txs, ls).runner.phase.Running?
    ensures var s := FakeRun(threshold, txs, ls).runner;
            Drainable(threshold, txs) <==> s.phase == AllFuturesDone && s.queue == []
  {
    var fs := FakeRun(threshold, txs, ls);
    var s := fs.runner;
    FakeBeginOnCourse(threshold, txs);
    FakeExecOnCourse(threshold, txs, FakeBegin(threshold, txs), ls);
    if s.phase == AllFuturesDone && s.queue == [] {
      forall k | 0 <= k < |txs| ensures !Broken(txs[k]) {
        PoppedIsLiveOrFinished(txs, fs, k);
      }
    }
  }

  /** A drained run has recorded a result for every transaction. */
  lemma {:induction false} FakeRunCompletes(threshold: nat, txs: seq<Task>, ls: seq<FakeLabel>)
    requires Distinct(Hashes(txs)) && |txs| <= USIZE_MAX && Uninterrupted(ls)
    requires Drainable(threshold, txs) && !FakeRun(threshold, txs, ls).runner.phase.Running?
    ensures var s := FakeRun(threshold, txs, ls).runner;
            && s.phase == AllFuturesDone && s.queue == [] && s.live == []
            && multiset(s.done) + multiset(s.errors) == multiset(Hashes(txs))
  {
    var fs := FakeBegin(threshold, txs);
    FakeRunDrainsIff(threshold, txs, ls);
    FakeBeginOnCourse(threshold, txs);
    FakeExecOnCourse(threshold, txs, fs, ls);
    FakeRunsAreRuns(fs, ls);
    RunConservesTasks(threshold, false, txs, Concretes(fs, ls));
    var s := FakeRun(threshold, txs, ls).runner;
    assert Hashes(s.queue) == [] && LiveHashes(s.live) == [];
  }
}
