/** The runner object working on the in-memory sink object: together they are the runs of `FakeSink`. */
module FakeDriver {
  import opened Wrappers
  import opened Transactions
  import opened TxTask
  import opened Scheduler
  import opened FakeSink
  import opened Runner

  /** What the sink object answers a polled worker; `None` when its code panics. */
  method Ask(sink: FakeTransactionsSink, w: Worker) returns (input: Option<Input>)
    modifies sink
    ensures input == Answer(w)
    ensures sink.txs == PoolAfter(old(sink.txs), w)
  {
    match w.stage {
      case Fresh =>
        if w.task.watched {
          sink.SubmitAndWatch(w.task);
        } else {
          sink.BeginSubmit(w.task);
        }
        input := Some(FirstPoll);
      case Submitting =>
        if w.task.watched {
          input := Some(SubmitReply(Pass));
        } else {
          var result := sink.EndSubmit(w.task);
          input := if result.None? then None else Some(SubmitReply(result.value));
        }
      case Streaming(seen) =>
        var item := sink.NextEvent(w.task, seen);
        input := Some(StreamItem(item));
      case Waiting =>
        input := Some(FirstPoll);
    }
  }

  method PollWorker(runner: Runner, sink: FakeTransactionsSink, i: nat)
    requires runner.Consistent() && runner.phase == Running && i < |runner.workers|
    modifies runner, runner.eventCounters, runner.logs.Values, sink
    ensures runner.Consistent() && runner.logs == old(runner.logs)
    ensures FakeState(runner.View(), sink.txs) == FakeStep(old(FakeState(runner.View(), sink.txs)), Poll(i))
  {
    var input := Ask(sink, runner.workers[i]);
    var pending := sink.PendingExtrinsics();
    runner.Select(if input.None? then SinkPanics(i) else Work(i, input.value, pending));
  }

  /** One select branch of a runner on the fake sink. */
  method DriveStep(runner: Runner, sink: FakeTransactionsSink, l: FakeLabel)
    requires runner.Consistent()
    modifies runner, runner.eventCounters, runner.logs.Values, sink
    ensures runner.Consistent() && runner.logs == old(runner.logs)
    ensures FakeState(runner.View(), sink.txs) == FakeStep(old(FakeState(runner.View(), sink.txs)), l)
  {
    if runner.phase != Running {
      return;
    }
    match l {
      case Poll(i) =>
        if i < |runner.workers| {
          PollWorker(runner, sink, i);
        }
      case Timer =>
        var pending := sink.PendingExtrinsics();
        runner.Select(Tick(pending));
      case StopRequest => runner.Select(Stop);
      case Deadline => runner.Select(Timeout);
      case Idle => runner.Select(NoWorkers);
    }
  }

  /** The select loop of a runner on the fake sink. */
  method DriveLoop(runner: Runner, sink: FakeTransactionsSink, schedule: seq<FakeLabel>)
    requires runner.Consistent()
    modifies runner, runner.eventCounters, runner.logs.Values, sink
    ensures runner.Consistent()
    ensures FakeState(runner.View(), sink.txs) == FakeExec(old(FakeState(runner.View(), sink.txs)), schedule)
  {
    ghost var goal := FakeExec(FakeState(runner.View(), sink.txs), schedule);
    var k := 0;
    assert schedule[k..] == schedule;
    while k < |schedule|
      invariant 0 <= k <= |schedule|
      invariant runner.Consistent() && runner.logs == old(runner.logs)
      invariant FakeExec(FakeState(runner.View(), sink.txs), schedule[k..]) == goal
    {
      assert schedule[k..][1..] == schedule[k + 1..];
      DriveStep(runner, sink, schedule[k]);
      k := k + 1;
    }
  }

  /** A new runner on a new fake sink goes through exactly the states of `FakeRun`. */
  method Drive(threshold: nat, txs: seq<Task>, schedule: seq<FakeLabel>)
    returns (runner: Runner, sink: FakeTransactionsSink)
    ensures runner.Consistent()
    ensures FakeState(runner.View(), sink.txs) == FakeRun(threshold, txs, schedule)
  {
    sink := new FakeTransactionsSink();
    runner := new Runner(threshold, false, txs);
    runner.StartWorkers(threshold);
    assert FakeState(runner.View(), sink.txs) == FakeBegin(threshold, txs);
    DriveLoop(runner, sink, schedule);
  }
}
