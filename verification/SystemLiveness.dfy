/**
 * What the composed system owes a waiting task: its request is in the monitor's channel or has been
 * processed, every block that decides it is answered, and the answer ends the task.
 */
module SystemLiveness {
  import opened Wrappers
  import opened Transactions
  import opened ExecutionLog
  import opened TxTask
  import opened Scheduler
  import opened Journals
  import opened BlockMonitor
  import opened MonitorRuns
  import opened MonitoredRuns
  import opened Budgeting

  // ---- Every waiting task has asked ----

  /** The request `t` owes the monitor: its own hash, its deadline if it has one, and its own channel. */
  function Request(t: Task): Op {
    Registration(t.hash, t.validUntil, Channel(t))
  }

  ghost predicate WaitersAsk(y: System) {
    && y.runner.monitored
    && forall i :: 0 <= i < |y.runner.live| && y.runner.live[i].stage.Waiting? ==>
         Request(y.runner.live[i].task) in Asked(y)
  }

  lemma {:induction false} RefillAddsFresh(s: State, budget: nat, j: nat)
    requires Valid(s) && j < |Refill(s, budget).live|
    ensures j < |s.live| ==> Refill(s, budget).live[j] == s.live[j]
    ensures j >= |s.live| ==> Refill(s, budget).live[j].stage.Fresh?
    decreases |s.queue|
  {
    if budget != 0 && s.queue != [] {
      RefillAddsFresh(StartNext(s), budget - 1, j);
    }
  }

  ghost predicate WasWaiting(s: State, w: Worker) {
    exists i :: 0 <= i < |s.live| && s.live[i] == w
  }

  lemma {:induction false} ConsumeKeepsWaiting(s: State, pending: nat, j: nat)
    requires Valid(s) && j < |ConsumePending(s, pending).live| && ConsumePending(s, pending).live[j].stage.Waiting?
    ensures j < |s.live| && ConsumePending(s, pending).live[j] == s.live[j]
  {
    RefillAddsFresh(Sampled(s, pending), Budget(s, pending), j);
  }

  lemma {:induction false} ReturnedKeepsWaiting(s: State, i: nat, es: seq<Event>, ok: bool, pending: nat, j: nat)
    requires Valid(s) && i < |s.live|
    requires var s' := ConsumePending(Returned(s, i, es, ok), pending); j < |s'.live| && s'.live[j].stage.Waiting?
    ensures WasWaiting(s, ConsumePending(Returned(s, i, es, ok), pending).live[j])
  {
    var s1 := Returned(s, i, es, ok);
    ConsumeKeepsWaiting(s1, pending, j);
    assert s1.live[j] == s.live[if j < i then j else j + 1];
  }

  /** A worker starts to wait when its submission is accepted, and then it asks the monitor. */
  lemma {:induction false} WaitingHasAsked(s: State, l: Label, j: nat)
    requires Valid(s) && s.monitored && j < |Step(s, l).live| && Step(s, l).live[j].stage.Waiting?
    ensures var w := Step(s, l).live[j]; WasWaiting(s, w) || Requested(s, l) == [Request(w.task)]
  {
    if s.phase.Running? && l.Tick? {
      ConsumeKeepsWaiting(s, l.pending, j);
    } else if s.phase.Running? && l.Work? && l.i < |s.live| {
      match React(s.live[l.i], s.monitored, l.input)
      case Ignored =>
        assert Step(s, l).live[j] == s.live[j];
      case Continues(e, next) =>
        if j != l.i {
          assert Step(s, l).live[j] == s.live[j];
        } else {
          assert Step(s, l).live[j] == Worker(s.live[j].task, next);
        }
      case Returns(es, ok) =>
        ReturnedKeepsWaiting(s, l.i, es, ok, l.pending, j);
    } else {
      assert Step(s, l).live == s.live;
    }
  }

  /** What has been asked stays asked. */
  lemma {:induction false} AskedStays(y: System, l: SystemLabel, op: Op)
    requires Valid(y.runner) && op in Asked(y)
    ensures op in Asked(SystemStep(y, l))
  {
    var y' := SystemStep(y, l);
    var k :| 0 <= k < |Asked(y)| && Asked(y)[k] == op;
    if l.Chain? {
      assert Asked(y')[if k < |y.history| then k else k + 1] == op;
    } else {
      assert Asked(y) <= Asked(y');
    }
  }

  lemma {:induction false} StepWaitersAsk(y: System, l: SystemLabel)
    requires Valid(y.runner) && WaitersAsk(y)
    ensures WaitersAsk(SystemStep(y, l))
  {
    var y' := SystemStep(y, l);
    var branch := match l
                  case Sink(b) => b
                  case Deliver(i, reply, pending) => Work(i, MonitorReply(reply), pending)
                  case _ => Stop;
    if y'.runner != y.runner {
      StepKeepsThreshold(y.runner, branch);
    }
    forall j | 0 <= j < |y'.runner.live| && y'.runner.live[j].stage.Waiting?
      ensures Request(y'.runner.live[j].task) in Asked(y')
    {
      var w := y'.runner.live[j];
      if y'.runner != y.runner {
        WaitingHasAsked(y.runner, branch, j);
      } else {
        assert WasWaiting(y.runner, w);
      }
      if WasWaiting(y.runner, w) {
        AskedStays(y, l, Request(w.task));
      } else {
        assert y'.requests == y.requests + [Request(w.task)];
        assert Asked(y')[|Asked(y)|] == Request(w.task);
      }
    }
  }

  lemma {:induction false} ExecWaitersAsk(y: System, ls: seq<SystemLabel>)
    requires Valid(y.runner) && WaitersAsk(y)
    ensures WaitersAsk(SystemExec(y, ls))
    decreases |ls|
  {
    if ls != [] {
      StepWaitersAsk(y, ls[0]);
      ExecWaitersAsk(SystemStep(y, ls[0]), ls[1..]);
    }
  }

  /** In every reachable state of the composed system every waiting task has asked the monitor, with
      its deadline if it has one and without one if it has none. */
  lemma {:induction false} SystemWaitersAsk(threshold: nat, txs: seq<Task>, ls: seq<SystemLabel>)
    ensures WaitersAsk(SystemRun(threshold, txs, ls))
  {
    var y := System(Begin(threshold, true, txs), IDLE, [], []);
    RefillFrame(New(threshold, true, txs), threshold);
    forall j | 0 <= j < |y.runner.live| ensures y.runner.live[j].stage.Fresh? {
      RefillAddsFresh(New(threshold, true, txs), threshold, j);
    }
    ExecWaitersAsk(y, ls);
  }

  // ---- The channel is emptied in order ----

  /** Taking a request processes the first one. */
  lemma {:induction false} ReceiveTakesFirst(y: System)
    requires Valid(y.runner) && y.requests != []
    ensures var y' := SystemStep(y, Receive);
            && y'.monitor == MonitorStep(y.monitor, y.requests[0])
            && y'.history == y.history + [y.requests[0]] && y'.requests == y.requests[1..]
            && y'.runner == y.runner
  {
  }

  function Receives(n: nat): (ls: seq<SystemLabel>)
    ensures |ls| == n && forall i :: 0 <= i < n ==> ls[i] == Receive
  {
    seq(n, i => Receive)
  }

  /** Taking as many requests as there are processes all of them, in the order they were sent. */
  lemma {:induction false} ReceivesAll(y: System)
    requires Valid(y.runner)
    ensures var y' := SystemExec(y, Receives(|y.requests|));
            && y'.runner == y.runner && y'.requests == [] && y'.history == Asked(y)
            && y'.monitor == MonitorExec(y.monitor, y.requests)
    decreases |y.requests|
  {
    if y.requests == [] {
      assert Receives(0) == [];
    } else {
      var y1 := SystemStep(y, Receive);
      ReceiveTakesFirst(y);
      ReceivesAll(y1);
      assert Receives(|y.requests|)[1..] == Receives(|y1.requests|);
      assert Asked(y1) == Asked(y);
    }
  }

  // ---- Blocks that decide a request are answered ----

  /** What the monitor has processed. */
  lemma {:induction false} SystemMonitor(threshold: nat, txs: seq<Task>, ls: seq<SystemLabel>)
    requires Distinct(Hashes(txs))
    ensures var y := SystemRun(threshold, txs, ls); OnceOnly(y.history) && y.monitor == MonitorExec(IDLE, y.history)
  {
    SystemRunSound(threshold, txs, ls);
    HistoryOnceOnly(SystemRun(threshold, txs, ls));
  }

  lemma {:induction false} HistoryOnceOnly(y: System)
    requires OnceOnly(Asked(y))
    ensures OnceOnly(y.history)
  {
    assert forall k :: 0 <= k < |y.history| ==> Asked(y)[k] == y.history[k];
  }

  /** The request of `t` was processed as operation `n`, and operation `j` is the first one since then
      that decides it. */
  ghost predicate DecidedAt(ops: seq<Op>, t: Task, n: nat, j: nat) {
    && n < j < |ops| && ops[n] == Request(t) && Decides(ops[j], t.hash, t.validUntil)
    && forall i :: n < i < j ==> !Decides(ops[i], t.hash, t.validUntil)
  }

  ghost predicate DecidedSince(ops: seq<Op>, t: Task, n: nat) {
    exists j :: n < j < |ops| && Decides(ops[j], t.hash, t.validUntil)
  }

  lemma {:induction false} SplitAt(ops: seq<Op>, t: Task, n: nat)
    requires n < |ops| && ops[n] == Request(t)
    ensures ops == ops[..n] + ([Request(t)] + ops[n + 1..])
    ensures DecidedSince(ops, t, n) <==> SomeDecides(ops[n + 1..], t.hash, t.validUntil)
  {
    var post := ops[n + 1..];
    if DecidedSince(ops, t, n) {
      var j :| n < j < |ops| && Decides(ops[j], t.hash, t.validUntil);
      assert post[j - n - 1] == ops[j];
    }
    if SomeDecides(post, t.hash, t.validUntil) {
      var j :| 0 <= j < |post| && Decides(post[j], t.hash, t.validUntil);
      assert ops[n + 1 + j] == post[j];
    }
  }

  lemma {:induction false} OpsDecisionAnswered(ops: seq<Op>, t: Task, n: nat, j: nat)
    requires OnceOnly(ops) && DecidedAt(ops, t, n, j)
    ensures var replies, b := MonitorExec(IDLE, ops).replies, ops[j].block;
            && (t.hash in b.extrinsics ==> (Channel(t), Success(b.hash)) in replies)
            && (t.hash !in b.extrinsics ==> (Channel(t), Failure(MortalLifetimeSurpassed(b.number))) in replies)
  {
    var pre, post := ops[..n], ops[n + 1..];
    SplitAt(ops, t, n);
    assert forall i :: 0 <= i < j - n - 1 ==> post[i] == ops[n + 1 + i];
    assert post[j - n - 1] == ops[j];
    DecisionIsAnswered(pre, t.hash, t.validUntil, Channel(t), post, j - n - 1);
  }

  lemma {:induction false} OpsAnsweredIff(ops: seq<Op>, t: Task, n: nat)
    requires OnceOnly(ops) && n < |ops| && ops[n] == Request(t)
    ensures (exists r :: (Channel(t), r) in MonitorExec(IDLE, ops).replies) <==> DecidedSince(ops, t, n)
  {
    SplitAt(ops, t, n);
    AnsweredIff(ops[..n], t.hash, t.validUntil, Channel(t), ops[n + 1..]);
  }

  /** The first finalized block to decide a request, by its hash or its deadline, is answered: with
      `Ok` if it has the transaction, with the expiry otherwise. */
  lemma {:induction false} SystemDecisionAnswered(threshold: nat, txs: seq<Task>, ls: seq<SystemLabel>, t: Task,
                                                  n: nat, j: nat)
    requires Distinct(Hashes(txs)) && DecidedAt(SystemRun(threshold, txs, ls).history, t, n, j)
    ensures var y := SystemRun(threshold, txs, ls);
            var b := y.history[j].block;
            && (t.hash in b.extrinsics ==> (Channel(t), Success(b.hash)) in y.monitor.replies)
            && (t.hash !in b.extrinsics ==>
                  (Channel(t), Failure(MortalLifetimeSurpassed(b.number))) in y.monitor.replies)
  {
    SystemMonitor(threshold, txs, ls);
    OpsDecisionAnswered(SystemRun(threshold, txs, ls).history, t, n, j);
  }

  /** A processed request has been answered if and only if a finalized block since then had its hash
      or its deadline. */
  lemma {:induction false} SystemAnsweredIff(threshold: nat, txs: seq<Task>, ls: seq<SystemLabel>, t: Task, n: nat)
    requires Distinct(Hashes(txs))
    requires var ops := SystemRun(threshold, txs, ls).history; n < |ops| && ops[n] == Request(t)
    ensures var y := SystemRun(threshold, txs, ls);
            (exists r :: (Channel(t), r) in y.monitor.replies) <==> DecidedSince(y.history, t, n)
  {
    SystemMonitor(threshold, txs, ls);
    OpsAnsweredIff(SystemRun(threshold, txs, ls).history, t, n);
  }

  // ---- The answer ends the task ----

  lemma {:induction false} RefillKeepsLog(s: State, budget: nat, h: Hash)
    requires Valid(s) && h in s.logs && forall j :: 0 <= j < |s.queue| ==> s.queue[j].hash != h
    ensures h in Refill(s, budget).logs && Refill(s, budget).logs[h] == s.logs[h]
    decreases |s.queue|
  {
    if budget != 0 && s.queue != [] {
      RefillKeepsLog(StartNext(s), budget - 1, h);
    }
  }

  /** The runner after worker `i` has returned with the answer `reply`. */
  ghost predicate EndsWith(s: State, s': State, h: Hash, reply: Reply) {
    && h in s.logs && h in s'.logs
    && (reply.Success? ==>
          && s'.done == s.done + [h] && s'.errors == s.errors
          && s'.logs[h] == s.logs[h] + [FinalizedMonitor(reply.value)])
    && (reply.Failure? ==>
          && reply.error.MortalLifetimeSurpassed?
          && s'.done == s.done && s'.errors == s.errors + [h]
          && s'.logs[h] == s.logs[h] + [MortalDroppedMonitor(reply.error.block)])
  }

  lemma {:induction false} AnswerEnds(s: State, i: nat, reply: Reply, pending: nat)
    requires Valid(s) && Apart(s) && s.phase.Running? && i < |s.live| && s.live[i].stage.Waiting?
    requires reply.Failure? ==> reply.error.MortalLifetimeSurpassed?
    ensures EndsWith(s, Step(s, Work(i, MonitorReply(reply), pending)), s.live[i].task.hash, reply)
  {
    var h := s.live[i].task.hash;
    var e := if reply.Success? then FinalizedMonitor(reply.value) else MortalDroppedMonitor(reply.error.block);
    AnswerReturns(s, i, reply, e);
    var s1 := Returned(s, i, [e], reply.Success?);
    assert s1.queue == s.queue && s1.logs[h] == s.logs[h] + [e];
    RefillFrame(Sampled(s1, pending), Budget(s1, pending));
    RefillKeepsLog(Sampled(s1, pending), Budget(s1, pending), h);
  }

  /** Delivering `Ok` with block `b` makes the task done with `b` last in its log; delivering the
      expiry makes it fail with the expiry last in its log. */
  lemma {:induction false} DeliverEnds(txs: seq<Task>, y: System, i: nat, reply: Reply, pending: nat)
    requires SystemSound(txs, y) && Distinct(Hashes(txs)) && y.runner.phase.Running?
    requires i < |y.runner.live| && y.runner.live[i].stage.Waiting?
    requires (Channel(y.runner.live[i].task), reply) in y.monitor.replies
    ensures EndsWith(y.runner, SystemStep(y, Deliver(i, reply, pending)).runner, y.runner.live[i].task.hash, reply)
  {
    assert y.runner.live[i].task in txs;
    RepliesAreBenign(txs, y, y.runner.live[i].task, reply);
    SingleIsApart(y.runner);
    AnswerEnds(y.runner, i, reply, pending);
  }

  lemma {:induction false} AnswerReturns(s: State, i: nat, reply: Reply, e: Event)
    requires i < |s.live| && s.live[i].stage.Waiting?
    requires reply.Failure? ==> reply.error.MortalLifetimeSurpassed?
    requires e == if reply.Success? then FinalizedMonitor(reply.value) else MortalDroppedMonitor(reply.error.block)
    ensures React(s.live[i], s.monitored, MonitorReply(reply)) == Returns([e], reply.Success?)
  {
  }

  // ---- A waiting task can always be brought to its end ----

  lemma {:induction false} SystemExecAppend(y: System, first: seq<SystemLabel>, rest: seq<SystemLabel>)
    requires Valid(y.runner)
    ensures SystemExec(y, first + rest) == SystemExec(SystemExec(y, first), rest)
    decreases |first|
  {
    if first == [] {
      assert first + rest == rest;
    } else {
      assert (first + rest)[1..] == first[1..] + rest;
      SystemExecAppend(SystemStep(y, first[0]), first[1..], rest);
    }
  }

  /**
   * From every reachable running state: once the monitor has taken the requests in its channel and
   * seen a finalized block with the transaction of a waiting task, there is an answer for that task,
   * and delivering it ends the task.
   */
  lemma {:induction false} WaitingTaskCanEnd(threshold: nat, txs: seq<Task>, ls: seq<SystemLabel>, i: nat, b: Block,
                                             pending: nat)
    returns (reply: Reply)
    requires Distinct(Hashes(txs))
    requires var s := SystemRun(threshold, txs, ls).runner;
             && s.phase.Running? && i < |s.live| && s.live[i].stage.Waiting?
             && s.live[i].task.hash in b.extrinsics
    ensures var y := SystemRun(threshold, txs, ls);
            var y' := SystemExec(y, Receives(|y.requests|) + [Chain(b, true), Deliver(i, reply, pending)]);
            EndsWith(y.runner, y'.runner, y.runner.live[i].task.hash, reply)
  {
    var y := SystemRun(threshold, txs, ls);
    SystemRunSound(threshold, txs, ls);
    SystemWaitersAsk(threshold, txs, ls);
    assert Request(y.runner.live[i].task) in Asked(y);
    reply := WaiterEnds(txs, y, i, b, pending);
  }

  lemma {:induction false} WaiterEnds(txs: seq<Task>, y: System, i: nat, b: Block, pending: nat) returns (reply: Reply)
    requires SystemSound(txs, y) && Distinct(Hashes(txs)) && y.runner.phase.Running?
    requires i < |y.runner.live| && y.runner.live[i].stage.Waiting?
    requires Request(y.runner.live[i].task) in Asked(y) && y.runner.live[i].task.hash in b.extrinsics
    ensures var y' := SystemExec(y, Receives(|y.requests|) + [Chain(b, true), Deliver(i, reply, pending)]);
            EndsWith(y.runner, y'.runner, y.runner.live[i].task.hash, reply)
  {
    ReceivesAll(y);
    SystemExecSound(txs, y, Receives(|y.requests|));
    var y1 := SystemExec(y, Receives(|y.requests|));
    reply := WaiterEndsWithBlock(txs, y1, i, b, pending);
    ThreeParts(y, Chain(b, true), Deliver(i, reply, pending));
  }

  lemma {:induction false} WaiterEndsWithBlock(txs: seq<Task>, y: System, i: nat, b: Block, pending: nat)
    returns (reply: Reply)
    requires SystemSound(txs, y) && Distinct(Hashes(txs)) && y.runner.phase.Running?
    requires i < |y.runner.live| && y.runner.live[i].stage.Waiting?
    requires Request(y.runner.live[i].task) in y.history && y.runner.live[i].task.hash in b.extrinsics
    ensures var y' := SystemStep(SystemStep(y, Chain(b, true)), Deliver(i, reply, pending));
            EndsWith(y.runner, y'.runner, y.runner.live[i].task.hash, reply)
  {
    var y1 := SystemStep(y, Chain(b, true));
    SystemStepSound(txs, y, Chain(b, true));
    reply := BlockAnswers(y1, y.runner.live[i].task, b);
    DeliverEnds(txs, y1, i, reply, pending);
  }

  lemma {:induction false} ThreeParts(y: System, l1: SystemLabel, l2: SystemLabel)
    requires Valid(y.runner)
    ensures SystemExec(y, Receives(|y.requests|) + [l1, l2])
         == SystemStep(SystemStep(SystemExec(y, Receives(|y.requests|)), l1), l2)
  {
    SystemExecAppend(y, Receives(|y.requests|), [l1, l2]);
    TwoSteps(SystemExec(y, Receives(|y.requests|)), [l1, l2]);
  }

  lemma {:induction false} TwoSteps(y: System, ls: seq<SystemLabel>)
    requires Valid(y.runner) && |ls| == 2
    ensures SystemExec(y, ls) == SystemStep(SystemStep(y, ls[0]), ls[1])
  {
    var y1 := SystemStep(y, ls[0]);
    assert ls[1..][1..] == [];
    assert SystemExec(y, ls) == SystemExec(y1, ls[1..]);
    assert SystemExec(y1, ls[1..]) == SystemStep(y1, ls[1]);
  }

  /** Right after a finalized block with its hash, a processed request has an answer. */
  lemma {:induction false} BlockAnswers(y: System, t: Task, b: Block) returns (reply: Reply)
    requires OnceOnly(Asked(y)) && y.monitor == MonitorExec(IDLE, y.history) && y.history != []
    requires y.history[|y.history| - 1] == Finalization(b) && Request(t) in y.history && t.hash in b.extrinsics
    ensures (Channel(t), reply) in y.monitor.replies
  {
    var n :| 0 <= n < |y.history| && y.history[n] == Request(t);
    HistoryOnceOnly(y);
    OpsAnsweredIff(y.history, t, n);
    assert Decides(y.history[|y.history| - 1], t.hash, t.validUntil);
    reply :| (Channel(t), reply) in y.monitor.replies;
  }
}
