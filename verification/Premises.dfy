/**
 * What the premises of the main results are for: inputs on which the results fail without them.
 */
module Premises {
  import opened Wrappers
  import opened Transactions
  import opened ExecutionLog
  import opened TxTask
  import opened Scheduler
  import opened FakeSink

  /** Two workers of the same task, and one more task queued behind them. */
  ghost predicate Pair(f: FakeState, c: Task, a: Task, stages: seq<Stage>) {
    && Valid(f.runner) && f.runner.phase.Running? && f.runner.threshold == 2 && f.runner.queue == [c]
    && |f.runner.live| == |stages| == 2
    && forall i :: 0 <= i < 2 ==> f.runner.live[i] == Worker(a, stages[i])
  }

  function Booking(tally: Tally, k: Kind): Tally {
    tally + multiset{k}
  }

  /** The first poll of a worker sends its task. */
  lemma {:induction false} PollSends(f: FakeState, c: Task, a: Task, stages: seq<Stage>, i: nat)
    requires Pair(f, c, a, stages) && i < 2 && stages[i].Fresh?
    ensures var f' := FakeStep(f, Poll(i));
            && Pair(f', c, a, stages[i := Submitting])
            && f'.pool == f.pool + {a.hash} && f'.runner.tally == Booking(f.runner.tally, CSent)
  {
  }

  /** The second poll of a watched worker finds it accepted. */
  lemma {:induction false} PollAccepts(f: FakeState, c: Task, a: Task, stages: seq<Stage>, i: nat)
    requires Pair(f, c, a, stages) && i < 2 && stages[i].Submitting? && a.watched
    ensures var f' := FakeStep(f, Poll(i));
            && Pair(f', c, a, stages[i := Streaming(0)])
            && f'.pool == f.pool && f'.runner.tally == Booking(f.runner.tally, CWatchSuccess)
  {
  }

  lemma {:induction false} FillsTwo(c: Task, a: Task)
    ensures var f := FakeBegin(2, [c, a, a]);
            Pair(f, c, a, [Fresh, Fresh]) && f.pool == {} && f.runner.tally == multiset{CPopped, CPopped}
  {
    var s0 := New(2, false, [c, a, a]);
    var s1 := StartNext(s0);
    assert s1.queue == [c, a] && s1.live == [Worker(a, Fresh)];
    var s2 := StartNext(s1);
    assert Refill(s1, 1) == s2;
  }

  function TwoPolls(f: FakeState): FakeState
    requires Valid(f.runner)
  {
    FakeStep(FakeStep(f, Poll(0)), Poll(1))
  }

  lemma {:induction false} BothSend(f: FakeState, c: Task, a: Task)
    requires Pair(f, c, a, [Fresh, Fresh]) && f.pool == {}
    ensures var f' := TwoPolls(f);
            && Pair(f', c, a, [Submitting, Submitting]) && f'.pool == {a.hash}
            && f'.runner.tally == Booking(Booking(f.runner.tally, CSent), CSent)
  {
    var first := [Fresh, Fresh];
    PollSends(f, c, a, first, 0);
    PollSends(FakeStep(f, Poll(0)), c, a, first[0 := Submitting], 1);
    assert first[0 := Submitting][1 := Submitting] == [Submitting, Submitting];
  }

  lemma {:induction false} BothAccepted(f: FakeState, c: Task, a: Task)
    requires Pair(f, c, a, [Submitting, Submitting]) && a.watched
    ensures var f' := TwoPolls(f);
            && Pair(f', c, a, [Streaming(0), Streaming(0)]) && f'.pool == f.pool
            && f'.runner.tally == Booking(Booking(f.runner.tally, CWatchSuccess), CWatchSuccess)
  {
    var first := [Submitting, Submitting];
    PollAccepts(f, c, a, first, 0);
    PollAccepts(FakeStep(f, Poll(0)), c, a, first[0 := Streaming(0)], 1);
    assert first[0 := Streaming(0)][1 := Streaming(0)] == [Streaming(0), Streaming(0)];
  }

  lemma {:induction false} TimerStartsOne(f: FakeState, c: Task, a: Task)
    requires Pair(f, c, a, [Streaming(0), Streaming(0)]) && |f.pool| == 1 && Buffered(f.runner.tally) == 0
    ensures |FakeStep(f, Timer).runner.live| == 3
  {
    assert Budget(f.runner, 1) == 1;
    RefillFrame(Sampled(f.runner, 1), 1);
  }

  /** Both submissions are answered, so nothing is buffered. */
  lemma {:induction false} NothingBuffered(sent: Tally)
    requires sent == Booking(Booking(multiset{CPopped, CPopped}, CSent), CSent)
    ensures Buffered(Booking(Booking(sent, CWatchSuccess), CWatchSuccess)) == 0
  {
  }

  lemma {:induction false} FiveSteps(f: FakeState)
    requires Valid(f.runner)
    ensures FakeExec(f, [Poll(0), Poll(1), Poll(0), Poll(1), Timer]) == FakeStep(TwoPolls(TwoPolls(f)), Timer)
  {
    var ls := [Poll(0), Poll(1), Poll(0), Poll(1), Timer];
    assert ls[1..][1..] == ls[2..] && ls[2..][1..] == ls[3..] && ls[3..][1..] == ls[4..] && ls[4..][1..] == [];
    var f2 := TwoPolls(f);
    assert FakeExec(f2, ls[2..]) == FakeExec(FakeStep(f2, ls[2]), ls[3..]);
    assert FakeExec(TwoPolls(f2), ls[4..]) == FakeStep(TwoPolls(f2), Timer);
  }

  /**
   * Two tasks of the same hash are one entry of the pool: with a threshold of two, a third task is
   * started while both are still in flight.
   */
  lemma {:induction false} SharedHashOverfills(c: Task, a: Task)
    requires a.watched
    ensures |FakeRun(2, [c, a, a], [Poll(0), Poll(1), Poll(0), Poll(1), Timer]).runner.live| == 3
  {
    var f := FakeBegin(2, [c, a, a]);
    FillsTwo(c, a);
    BothSend(f, c, a);
    NothingBuffered(TwoPolls(f).runner.tally);
    TwoSentOverfill(TwoPolls(f), c, a);
    FiveSteps(f);
  }

  lemma {:induction false} TwoSentOverfill(f: FakeState, c: Task, a: Task)
    requires Pair(f, c, a, [Submitting, Submitting]) && f.pool == {a.hash} && a.watched
    requires Buffered(Booking(Booking(f.runner.tally, CWatchSuccess), CWatchSuccess)) == 0
    ensures |FakeStep(TwoPolls(f), Timer).runner.live| == 3
  {
    BothAccepted(f, c, a);
    TimerStartsOne(TwoPolls(f), c, a);
  }

  // ---- Another monitor error ----

  /** One worker, one task queued behind it, and a threshold that lets one task run at a time. */
  ghost predicate Lone(s: State, u: Task, t: Task, stage: Stage) {
    && Valid(s) && s.phase.Running? && s.threshold == 1 && s.monitored
    && s.queue == [u] && s.live == [Worker(t, stage)]
  }

  lemma {:induction false} FillsOne(u: Task, t: Task)
    ensures var s := Begin(1, true, [u, t]); Lone(s, u, t, Fresh) && s.tally == multiset{CPopped}
  {
    var s := StartNext(New(1, true, [u, t]));
    assert s.queue == [u] && s.live == [Worker(t, Fresh)];
    assert Refill(s, 0) == s;
  }

  lemma {:induction false} LoneSubmits(s: State, u: Task, t: Task)
    requires Lone(s, u, t, Fresh) && !t.watched
    ensures var s2 := Step(Step(s, Work(0, FirstPoll, 0)), Work(0, SubmitReply(Pass), 0));
            Lone(s2, u, t, Waiting) && s2.tally == Booking(Booking(s.tally, CSent), CSubmitSuccess)
  {
    LoneSends(s, u, t);
    var s1 := Step(s, Work(0, FirstPoll, 0));
    assert s1.live[0 := Worker(t, Waiting)] == [Worker(t, Waiting)];
  }

  lemma {:induction false} LoneSends(s: State, u: Task, t: Task)
    requires Lone(s, u, t, Fresh)
    ensures var s1 := Step(s, Work(0, FirstPoll, 0));
            Lone(s1, u, t, Submitting) && s1.tally == Booking(s.tally, CSent)
  {
    assert s.live[0 := Worker(t, Submitting)] == [Worker(t, Submitting)];
  }

  lemma {:induction false} LoneFails(s: State, u: Task, t: Task, message: string)
    requires Lone(s, u, t, Waiting) && s.tally == Booking(Booking(multiset{CPopped}, CSent), CSubmitSuccess)
    ensures var s' := Step(s, Work(0, MonitorReply(Failure(Other(message))), 0));
            && s'.phase.Running? && s'.threshold == 1 && s'.live == [] && s'.queue == [u]
            && Buffered(s'.tally) == USIZE_MAX
  {
    var e := SubmitResult(Fail(Other(message)));
    PushOne(s, t.hash, e);
    var s1 := Returned(s, 0, [e], false);
    NothingFits(s1);
  }

  lemma {:induction false} PushOne(s: State, h: Hash, e: Event)
    requires h in s.logs && KindOf(e).Some? && !IsInBlock(e)
    ensures PushAll(s, h, [e]) == Push(s, h, e) && Push(s, h, e).tally == Booking(s.tally, KindOf(e).value)
  {
    assert PushAll(s, h, [e]) == PushAll(Push(s, h, [e][0]), h, [e][1..]);
  }

  /** Two answers to one popped task leave no budget. */
  lemma {:induction false} NothingFits(s: State)
    requires s.threshold == 1
    requires s.tally == Booking(Booking(Booking(multiset{CPopped}, CSent), CSubmitSuccess), CSubmitError)
    ensures Buffered(s.tally) == USIZE_MAX && Budget(s, 0) == 0
  {
  }

  lemma {:induction false} ThreeSteps(s: State, ls: seq<Label>)
    requires Valid(s) && |ls| == 3
    ensures Exec(s, ls) == Step(Step(Step(s, ls[0]), ls[1]), ls[2])
  {
    assert ls[1..][1..] == ls[2..] && ls[2..][1..] == [];
    var s2 := Step(Step(s, ls[0]), ls[1]);
    assert Exec(Step(s, ls[0]), ls[1..]) == Exec(s2, ls[2..]);
    assert Exec(s2, ls[2..]) == Step(s2, ls[2]);
  }

  lemma {:induction false} NothingStarts(s: State, pending: nat)
    requires Valid(s) && s.phase.Running? && s.threshold == 1 && Buffered(s.tally) == USIZE_MAX
    ensures Step(s, Tick(pending)) == s.(sampled := Some(pending))
  {
    assert Budget(s, pending) == 0;
  }

  /**
   * A single monitor error other than mortal expiry, with nothing else in flight, makes `buffered`
   * wrap to the largest word: neither the refill nor the timer starts the queued task, whatever
   * the pool reports.
   */
  lemma {:induction false} OtherErrorStarves(u: Task, t: Task, message: string, pending: nat)
    requires !t.watched
    ensures var error := MonitorReply(Failure(Other(message)));
            var ls := [Work(0, FirstPoll, 0), Work(0, SubmitReply(Pass), 0), Work(0, error, 0)];
            var s := Run(1, true, [u, t], ls);
            && s.live == [] && s.queue == [u] && Buffered(s.tally) == USIZE_MAX
            && Step(s, Tick(pending)) == s.(sampled := Some(pending))
  {
    var error := MonitorReply(Failure(Other(message)));
    var ls := [Work(0, FirstPoll, 0), Work(0, SubmitReply(Pass), 0), Work(0, error, 0)];
    var s0 := Begin(1, true, [u, t]);
    FillsOne(u, t);
    LoneSubmits(s0, u, t);
    LoneFails(Step(Step(s0, ls[0]), ls[1]), u, t, message);
    ThreeSteps(s0, ls);
    NothingStarts(Run(1, true, [u, t], ls), pending);
  }
}
