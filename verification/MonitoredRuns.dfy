/**
 * The scheduler and the block monitor together: unwatched tasks register with the monitor through
 * its request channel and wait for its reply.
 */
module MonitoredRuns {
  import opened Wrappers
  import opened Transactions
  import opened ExecutionLog
  import opened TxTask
  import opened Scheduler
  import opened Budgeting
  import opened Journals
  import opened BlockMonitor
  import opened MonitorRuns

  /** `requests` is the monitor's request channel, `history` what the monitor has processed. */
  datatype System = System(runner: State, monitor: Monitor, requests: seq<Op>, history: seq<Op>)

  /**
   * `Sink`: a select branch in which no worker hears from the monitor. `Deliver`: worker `i` is
   * polled with a reply of the monitor. `Receive`: the monitor takes a request from its channel.
   * `Chain`: the monitor sees a best or finalized block.
   */
  datatype SystemLabel =
    | Sink(branch: Label)
    | Deliver(i: nat, reply: Reply, pending: nat)
    | Receive
    | Chain(block: Block, finalized: bool)

  /** A task waits at most once, so its channel can be named after it. */
  function Channel(t: Task): Listener {
    t.hash.id
  }

  /** The request a scheduler step sends: an accepted unwatched submission starts to wait. */
  function Requested(s: State, l: Label): seq<Op> {
    if s.phase.Running? && s.monitored && l.Work? && l.i < |s.live| && s.live[l.i].stage.Submitting?
       && !s.live[l.i].task.watched && l.input == SubmitReply(Pass)
    then [Registration(s.live[l.i].task.hash, s.live[l.i].task.validUntil, Channel(s.live[l.i].task))]
    else []
  }

  /** What awaiting the channel may yield: a reply that was sent, or an error if the trigger is gone. */
  ghost predicate Yields(m: Monitor, l: Listener, reply: Reply) {
    (l, reply) in m.replies || (l in m.dropped && reply.Failure? && reply.error.Other?)
  }

  ghost function SystemStep(y: System, l: SystemLabel): (y': System)
    requires Valid(y.runner)
    ensures Valid(y'.runner)
  {
    match l
    case Sink(branch) =>
      if branch.Work? && branch.input.MonitorReply? then y
      else y.(runner := Step(y.runner, branch), requests := y.requests + Requested(y.runner, branch))
    case Deliver(i, reply, pending) =>
      if i < |y.runner.live| && Yields(y.monitor, Channel(y.runner.live[i].task), reply)
      then y.(runner := Step(y.runner, Work(i, MonitorReply(reply), pending)))
      else y
    case Receive =>
      if y.requests == [] then y
      else System(y.runner, MonitorStep(y.monitor, y.requests[0]), y.requests[1..], y.history + [y.requests[0]])
    case Chain(block, finalized) =>
      var op := if finalized then Finalization(block) else BestBlock(block);
      y.(monitor := MonitorStep(y.monitor, op), history := y.history + [op])
  }

  ghost function SystemExec(y: System, ls: seq<SystemLabel>): (y': System)
    requires Valid(y.runner)
    ensures Valid(y'.runner)
    decreases |ls|
  {
    if ls == [] then y else SystemExec(SystemStep(y, ls[0]), ls[1..])
  }

  ghost function SystemRun(threshold: nat, txs: seq<Task>, ls: seq<SystemLabel>): (y: System)
    ensures Valid(y.runner)
  {
    SystemExec(System(Begin(threshold, true, txs), IDLE, [], []), ls)
  }

  // ---- Requests: each task at most one, in its own name ----

  /** Everything registered so far, processed or still in the channel. */
  function Asked(y: System): seq<Op> {
    y.history + y.requests
  }

  function UnansweredCount(live: seq<Worker>, h: Hash): nat {
    if live == [] then 0
    else
      var w := live[|live| - 1];
      UnansweredCount(live[..|live| - 1], h) + (if w.task.hash == h && Unanswered(w.stage) then 1 else 0)
  }

  /** How many tasks of hash `h` are queued or have not had their submission answered. */
  function QuietCount(s: State, h: Hash): nat {
    TaskCount(s.queue, h) + UnansweredCount(s.live, h)
  }

  ghost predicate NeverAsked(y: System, h: Hash) {
    forall k :: 0 <= k < |Asked(y)| && Asked(y)[k].Registration? ==> Asked(y)[k].hash != h
  }

  /** Requests are those of known tasks, with their own deadline and channel. */
  ghost predicate InOwnName(txs: seq<Task>, asked: seq<Op>) {
    forall k :: 0 <= k < |asked| && asked[k].Registration? ==>
      exists t :: t in txs && asked[k] == Registration(t.hash, t.validUntil, Channel(t))
  }

  ghost predicate Requests(txs: seq<Task>, y: System) {
    && OnceOnly(Asked(y))
    && InOwnName(txs, Asked(y))
    && (forall k :: 0 <= k < |y.requests| ==> y.requests[k].Registration?)
    && (forall h :: QuietCount(y.runner, h) > 0 ==> NeverAsked(y, h))
  }

  // ---- Monitor events in the logs have a cause in the monitor's history ----

  ghost predicate Caused(t: Task, history: seq<Op>, e: Event) {
    match e
    case MortalDroppedMonitor(n) => t.validUntil == Some(n)
    case FinalizedMonitor(b) => Included(t.hash, history, b)
    case _ => true
  }

  ghost predicate Included(h: Hash, history: seq<Op>, b: Hash) {
    exists j :: 0 <= j < |history| && history[j].Finalization? && history[j].block.hash == b
             && h in history[j].block.extrinsics
  }

  ghost predicate AllCaused(txs: seq<Task>, y: System)
    requires AllLogged(txs, y.runner)
  {
    forall k :: 0 <= k < |txs| ==> forall e :: e in y.runner.logs[txs[k].hash] ==> Caused(txs[k], y.history, e)
  }

  /** What is known of the scheduler on its own. */
  ghost predicate RunnerSound(txs: seq<Task>, s: State) {
    && Grammatical(txs, s) && Single(s) && Balanced(s) && InOrder(txs, s)
    && (forall h :: Occurrences(s, h) == TaskCount(txs, h))
  }

  ghost predicate SystemSound(txs: seq<Task>, y: System) {
    && RunnerSound(txs, y.runner)
    && y.monitor == MonitorExec(IDLE, y.history)
    && Requests(txs, y)
    && AllCaused(txs, y)
  }

  /** A reply on a task's channel answers that task's own registration. */
  lemma {:induction false} OwnRegistration(txs: seq<Task>, asked: seq<Op>, ops: seq<Op>, t: Task, reply: Reply)
    returns (i: nat)
    requires Distinct(Hashes(txs)) && t in txs && ops <= asked && OnceOnly(asked) && InOwnName(txs, asked)
    requires Yields(MonitorExec(IDLE, ops), Channel(t), reply)
    ensures OnceOnly(ops) && i < |ops| && ops[i] == Registration(t.hash, t.validUntil, Channel(t))
  {
    assert OnceOnly(ops) by {
      assert forall k :: 0 <= k < |ops| ==> asked[k] == ops[k];
    }
    MonitorRefinesScan(ops);
    ReplyHasRegistration(NO_ENTRIES, ops, Channel(t), reply);
    i :| 0 <= i < |ops| && ops[i].Registration? && ops[i].listener == Channel(t);
    assert asked[i] == ops[i];
    var u :| u in txs && ops[i] == Registration(u.hash, u.validUntil, Channel(u));
    assert u == t by {
      var k :| 0 <= k < |txs| && txs[k] == t;
      assert u.hash == Hash(Channel(u)) && t.hash == Hash(Channel(t));
      SameHashSameTask(txs, k, u);
    }
  }

  /** What a registration's reply says of the operations that followed it. */
  lemma {:induction false} ReplyIsCaused(pre: seq<Op>, h: Hash, deadline: Option<nat>, l: Listener, post: seq<Op>,
                                         reply: Reply)
    requires OnceOnly(pre + ([Registration(h, deadline, l)] + post))
    requires (l, reply) in MonitorExec(IDLE, pre + ([Registration(h, deadline, l)] + post)).replies
    ensures reply.Success? ==> Included(h, post, reply.value)
    ensures reply.Failure? ==> reply.error.MortalLifetimeSurpassed? && deadline == Some(reply.error.block)
  {
    if reply.Success? {
      OkIsInclusion(pre, h, deadline, l, post, reply.value);
    } else {
      ErrIsExpiry(pre, h, deadline, l, post, reply.error);
    }
  }

  lemma {:induction false} IncludedLater(h: Hash, ops: seq<Op>, from: nat, b: Hash)
    requires from <= |ops| && Included(h, ops[from..], b)
    ensures Included(h, ops, b)
  {
    var post := ops[from..];
    var j :| 0 <= j < |post| && post[j].Finalization? && post[j].block.hash == b && h in post[j].block.extrinsics;
    assert ops[from + j] == post[j];
  }

  /** A reply on a task's channel is `Ok` or the task's own expiry, never another error. */
  lemma {:induction false} RepliesAreBenign(txs: seq<Task>, y: System, t: Task, reply: Reply)
    requires Distinct(Hashes(txs)) && SystemSound(txs, y) && t in txs && Yields(y.monitor, Channel(t), reply)
    ensures reply.Success? ==> Included(t.hash, y.history, reply.value)
    ensures reply.Failure? ==> reply.error.MortalLifetimeSurpassed? && t.validUntil == Some(reply.error.block)
  {
    assert y.history <= Asked(y);
    var i := OwnRegistration(txs, Asked(y), y.history, t, reply);
    var pre, post := y.history[..i], y.history[i + 1..];
    assert y.history == pre + ([Registration(t.hash, t.validUntil, Channel(t))] + post);
    MonitorRefinesScan(y.history);
    ReplyIsCaused(pre, t.hash, t.validUntil, Channel(t), post, reply);
    if reply.Success? {
      IncludedLater(t.hash, y.history, i + 1, reply.value);
    }
  }

  // ---- What scheduler steps do to the quiet tasks ----

  lemma {:induction false} UnansweredAppend(live: seq<Worker>, w: Worker, h: Hash)
    ensures UnansweredCount(live + [w], h)
         == UnansweredCount(live, h) + (if w.task.hash == h && Unanswered(w.stage) then 1 else 0)
  {
    assert (live + [w])[..|live|] == live;
  }

  lemma {:induction false} UnansweredUpdate(live: seq<Worker>, i: nat, w: Worker, h: Hash)
    requires i < |live|
    ensures UnansweredCount(live[i := w], h) + (if live[i].task.hash == h && Unanswered(live[i].stage) then 1 else 0)
         == UnansweredCount(live, h) + (if w.task.hash == h && Unanswered(w.stage) then 1 else 0)
    ensures UnansweredCount(Without(live, i), h) <= UnansweredCount(live, h)
  {
    var n := |live| - 1;
    if i == n {
      assert live[i := w][..n] == live[..n] && Without(live, i) == live[..n];
    } else {
      UnansweredUpdate(live[..n], i, w, h);
      assert live[i := w][..n] == live[..n][i := w];
      assert Without(live, i) == Without(live[..n], i) + [live[n]];
      UnansweredAppend(Without(live[..n], i), live[n], h);
    }
  }

  lemma {:induction false} UnansweredAtMostLive(live: seq<Worker>, h: Hash)
    ensures UnansweredCount(live, h) <= LiveCount(live, h)
  {
    if live != [] {
      UnansweredAtMostLive(live[..|live| - 1], h);
    }
  }

  lemma {:induction false} RefillKeepsQuiet(s: State, budget: nat, h: Hash)
    requires Valid(s)
    ensures QuietCount(Refill(s, budget), h) == QuietCount(s, h)
    decreases |s.queue|
  {
    if budget != 0 && s.queue != [] {
      UnansweredAppend(s.live, Worker(s.queue[|s.queue| - 1], Fresh), h);
      RefillKeepsQuiet(StartNext(s), budget - 1, h);
    }
  }

  lemma {:induction false} ApplyKeepsQuiet(s: State, i: nat, r: Reaction, pending: nat, h: Hash)
    requires Valid(s) && i < |s.live|
    requires r.Continues? && Unanswered(r.next) ==> Unanswered(s.live[i].stage)
    ensures QuietCount(Apply(s, i, r, pending), h) <= QuietCount(s, h)
    ensures r.Continues? && !Unanswered(r.next) && Unanswered(s.live[i].stage) && h == s.live[i].task.hash ==>
      QuietCount(Apply(s, i, r, pending), h) == QuietCount(s, h) - 1
  {
    match r
    case Ignored =>
    case Continues(e, next) => UnansweredUpdate(s.live, i, Worker(s.live[i].task, next), h);
    case Returns(es, ok) =>
      var s1 := Returned(s, i, es, ok);
      UnansweredUpdate(s.live, i, s.live[i], h);
      RefillKeepsQuiet(Sampled(s1, pending), Budget(s1, pending), h);
  }

  lemma {:induction false} StepKeepsQuiet(s: State, l: Label, h: Hash)
    requires Valid(s)
    ensures QuietCount(Step(s, l), h) <= QuietCount(s, h)
    ensures Requested(s, l) != [] && h == Requested(s, l)[0].hash ==> QuietCount(Step(s, l), h) == QuietCount(s, h) - 1
  {
    if l.Tick? {
      RefillKeepsQuiet(Sampled(s, l.pending), Budget(s, l.pending), h);
    } else if l.Work? && l.i < |s.live| {
      ApplyKeepsQuiet(s, l.i, React(s.live[l.i], s.monitored, l.input), l.pending, h);
    }
  }

  // ---- What scheduler steps write into the logs ----

  lemma {:induction false} RefillWrites(s: State, budget: nat, g: Hash, e: Event)
    requires Valid(s) && g in s.logs && g in Refill(s, budget).logs && e in Refill(s, budget).logs[g]
    ensures e in s.logs[g] || e == Popped
    decreases |s.queue|
  {
    if budget != 0 && s.queue != [] {
      RefillWrites(StartNext(s), budget - 1, g, e);
    }
  }

  lemma {:induction false} ApplyWrites(s: State, i: nat, r: Reaction, pending: nat, g: Hash, e: Event)
    requires Valid(s) && i < |s.live| && g in s.logs
    requires g in Apply(s, i, r, pending).logs && e in Apply(s, i, r, pending).logs[g]
    ensures e in s.logs[g] || e == Popped ||
            (g == s.live[i].task.hash && ((r.Continues? && e == r.event) || (r.Returns? && e in r.events)))
  {
    if r.Returns? {
      var s1 := Returned(s, i, r.events, r.ok);
      RefillWrites(Sampled(s1, pending), Budget(s1, pending), g, e);
    }
  }

  lemma {:induction false} ReactWrites(w: Worker, monitored: bool, input: Input, e: Event)
    requires e.MortalDroppedMonitor? || e.FinalizedMonitor?
    requires var r := React(w, monitored, input); (r.Continues? && e == r.event) || (r.Returns? && e in r.events)
    ensures input.MonitorReply?
    ensures input.reply == if e.FinalizedMonitor? then Success(e.block) else Failure(MortalLifetimeSurpassed(e.number))
  {
  }

  /** Monitor events are only written when a monitor reply arrives. */
  lemma {:induction false} StepWrites(s: State, l: Label, g: Hash, e: Event)
    requires Valid(s) && g in s.logs && g in Step(s, l).logs && e in Step(s, l).logs[g] && e !in s.logs[g]
    requires e.MortalDroppedMonitor? || e.FinalizedMonitor?
    ensures l.Work? && l.i < |s.live| && g == s.live[l.i].task.hash && l.input.MonitorReply?
    ensures l.input.reply
         == if e.FinalizedMonitor? then Success(e.block) else Failure(MortalLifetimeSurpassed(e.number))
  {
    if l.Tick? {
      RefillWrites(Sampled(s, l.pending), Budget(s, l.pending), g, e);
    } else if l.Work? && l.i < |s.live| {
      ApplyWrites(s, l.i, React(s.live[l.i], s.monitored, l.input), l.pending, g, e);
      ReactWrites(s.live[l.i], s.monitored, l.input, e);
    }
  }

  // ---- The invariant ----

  /** A step of the scheduler with benign input keeps the scheduler's own invariants. */
  lemma {:induction false} RunnerStepSound(txs: seq<Task>, s: State, l: Label)
    requires Distinct(Hashes(txs)) && BenignLabel(l)
    requires RunnerSound(txs, s)
    ensures RunnerSound(txs, Step(s, l))
  {
    forall h ensures Occurrences(Step(s, l), h) == TaskCount(txs, h) {
      StepKeepsOccurrences(s, l, h);
    }
    StepGrammatical(txs, s, l);
    StepBalances(s, l, 0);
    StepKeepsOrder(txs, s, l);
  }

  lemma {:induction false} SinkRequests(txs: seq<Task>, y: System, l: Label)
    requires SystemSound(txs, y) && Distinct(Hashes(txs)) && BenignLabel(l)
    ensures Requests(txs, y.(runner := Step(y.runner, l), requests := y.requests + Requested(y.runner, l)))
  {
    var y' := y.(runner := Step(y.runner, l), requests := y.requests + Requested(y.runner, l));
    assert Asked(y') == Asked(y) + Requested(y.runner, l);
    SinkAsks(txs, y, l);
    forall h | QuietCount(y'.runner, h) > 0 ensures NeverAsked(y', h) {
      SinkKeepsQuiet(txs, y, l, h);
    }
  }

  /** What a step asks for has not been asked for before. */
  lemma {:induction false} SinkAsks(txs: seq<Task>, y: System, l: Label)
    requires SystemSound(txs, y)
    ensures OnceOnly(Asked(y) + Requested(y.runner, l)) && InOwnName(txs, Asked(y) + Requested(y.runner, l))
  {
    if Requested(y.runner, l) != [] {
      RequesterIsQuiet(y.runner, l.i);
      assert NeverAsked(y, y.runner.live[l.i].task.hash);
      AskingOnce(txs, Asked(y), y.runner.live[l.i].task);
    } else {
      assert Asked(y) + [] == Asked(y);
    }
  }

  lemma {:induction false} SinkKeepsQuiet(txs: seq<Task>, y: System, l: Label, h: Hash)
    requires SystemSound(txs, y) && QuietCount(Step(y.runner, l), h) > 0
    ensures NeverAsked(y.(runner := Step(y.runner, l), requests := y.requests + Requested(y.runner, l)), h)
  {
    var added := Requested(y.runner, l);
    StepKeepsQuiet(y.runner, l, h);
    QuietAtMostOnce(y.runner, h);
    assert NeverAsked(y, h);
    AskedMore(y, y.(runner := Step(y.runner, l), requests := y.requests + added), added, h);
  }

  lemma {:induction false} AskedMore(y: System, y': System, added: seq<Op>, h: Hash)
    requires NeverAsked(y, h) && y'.history == y.history && y'.requests == y.requests + added
    requires forall k :: 0 <= k < |added| && added[k].Registration? ==> added[k].hash != h
    ensures NeverAsked(y', h)
  {
    assert Asked(y') == Asked(y) + added;
  }

  /** A task whose hash has not been asked for may ask. */
  lemma {:induction false} AskingOnce(txs: seq<Task>, asked: seq<Op>, t: Task)
    requires OnceOnly(asked) && InOwnName(txs, asked) && t in txs
    requires forall k :: 0 <= k < |asked| && asked[k].Registration? ==> asked[k].hash != t.hash
    ensures var asked' := asked + [Registration(t.hash, t.validUntil, Channel(t))];
            OnceOnly(asked') && InOwnName(txs, asked')
  {
    forall k | 0 <= k < |asked| && asked[k].Registration? ensures asked[k].listener != Channel(t) {
      var u :| u in txs && asked[k] == Registration(u.hash, u.validUntil, Channel(u));
      assert u.hash == Hash(Channel(u)) && t.hash == Hash(Channel(t));
    }
  }

  lemma {:induction false} QuietAtMostOnce(s: State, h: Hash)
    requires Single(s)
    ensures QuietCount(s, h) <= 1
  {
    UnansweredAtMostLive(s.live, h);
    assert Occurrences(s, h) <= 1;
  }

  lemma {:induction false} RequesterIsQuiet(s: State, i: nat)
    requires i < |s.live| && s.live[i].stage.Submitting?
    ensures QuietCount(s, s.live[i].task.hash) > 0
  {
    UnansweredUpdate(s.live, i, Worker(s.live[i].task, Waiting), s.live[i].task.hash);
  }

  lemma {:induction false} SinkSound(txs: seq<Task>, y: System, l: Label)
    requires SystemSound(txs, y) && Distinct(Hashes(txs)) && !(l.Work? && l.input.MonitorReply?)
    ensures SystemSound(txs, SystemStep(y, Sink(l)))
  {
    var y' := SystemStep(y, Sink(l));
    RunnerStepSound(txs, y.runner, l);
    SinkRequests(txs, y, l);
    forall k, e | 0 <= k < |txs| && e in y'.runner.logs[txs[k].hash] ensures Caused(txs[k], y'.history, e) {
      if (e.MortalDroppedMonitor? || e.FinalizedMonitor?) && e !in y.runner.logs[txs[k].hash] {
        StepWrites(y.runner, l, txs[k].hash, e);
      }
    }
  }

  lemma {:induction false} DeliverSound(txs: seq<Task>, y: System, i: nat, reply: Reply, pending: nat)
    requires SystemSound(txs, y) && Distinct(Hashes(txs))
    requires i < |y.runner.live| && Yields(y.monitor, Channel(y.runner.live[i].task), reply)
    ensures SystemSound(txs, SystemStep(y, Deliver(i, reply, pending)))
  {
    var s, l := y.runner, Work(i, MonitorReply(reply), pending);
    var y' := SystemStep(y, Deliver(i, reply, pending));
    assert s.live[i].task in txs;
    RepliesAreBenign(txs, y, s.live[i].task, reply);
    RunnerStepSound(txs, s, l);
    SinkRequests(txs, y, l);
    assert y.requests + [] == y.requests;
    forall k, e | 0 <= k < |txs| && e in y'.runner.logs[txs[k].hash] ensures Caused(txs[k], y'.history, e) {
      if (e.MortalDroppedMonitor? || e.FinalizedMonitor?) && e !in s.logs[txs[k].hash] {
        StepWrites(s, l, txs[k].hash, e);
        SameHashSameTask(txs, k, s.live[i].task);
      }
    }
  }

  /** More history keeps every cause. */
  lemma {:induction false} CausesStay(txs: seq<Task>, y: System, y': System)
    requires AllLogged(txs, y.runner) && AllCaused(txs, y)
    requires y'.runner == y.runner && y.history <= y'.history
    ensures AllCaused(txs, y')
  {
    forall k, e | 0 <= k < |txs| && e in y.runner.logs[txs[k].hash] ensures Caused(txs[k], y'.history, e) {
      assert Caused(txs[k], y.history, e);
      if e.FinalizedMonitor? {
        var j :| 0 <= j < |y.history| && y.history[j].Finalization? && y.history[j].block.hash == e.block
              && txs[k].hash in y.history[j].block.extrinsics;
        assert y'.history[j] == y.history[j];
      }
    }
  }

  lemma {:induction false} MonitorStepSound(txs: seq<Task>, y: System, op: Op, rest: seq<Op>)
    requires SystemSound(txs, y)
    requires if op.Registration? then [op] + rest == y.requests else rest == y.requests
    ensures SystemSound(txs, System(y.runner, MonitorStep(y.monitor, op), rest, y.history + [op]))
  {
    var y' := System(y.runner, MonitorStep(y.monitor, op), rest, y.history + [op]);
    ExecConcat(IDLE, NO_ENTRIES, y.history, [op]);
    assert [op][1..] == [];
    CausesStay(txs, y, y');
    if op.Registration? {
      assert Asked(y') == Asked(y);
      assert forall k :: 0 <= k < |rest| ==> rest[k] == y.requests[k + 1];
      forall h | QuietCount(y'.runner, h) > 0 ensures NeverAsked(y', h) {
        assert NeverAsked(y, h);
      }
    } else {
      BlockRequests(txs, y, y', op);
    }
  }

  /** A block between the processed and the waiting requests changes nothing about them. */
  lemma {:induction false} BlockRequests(txs: seq<Task>, y: System, y': System, op: Op)
    requires Requests(txs, y) && !op.Registration?
    requires y'.runner == y.runner && y'.requests == y.requests && y'.history == y.history + [op]
    ensures Requests(txs, y')
  {
    var n := |y.history|;
    assert forall k :: 0 <= k < |Asked(y')| && k != n ==> Asked(y')[k] == Asked(y)[if k < n then k else k - 1];
    assert Asked(y')[n] == op;
    forall h | QuietCount(y'.runner, h) > 0 ensures NeverAsked(y', h) {
      assert NeverAsked(y, h);
    }
  }

  lemma {:induction false} SystemStepSound(txs: seq<Task>, y: System, l: SystemLabel)
    requires SystemSound(txs, y) && Distinct(Hashes(txs))
    ensures SystemSound(txs, SystemStep(y, l))
  {
    match l
    case Sink(branch) =>
      if !(branch.Work? && branch.input.MonitorReply?) {
        SinkSound(txs, y, branch);
      }
    case Deliver(i, reply, pending) =>
      if i < |y.runner.live| && Yields(y.monitor, Channel(y.runner.live[i].task), reply) {
        DeliverSound(txs, y, i, reply, pending);
      }
    case Receive =>
      if y.requests != [] {
        MonitorStepSound(txs, y, y.requests[0], y.requests[1..]);
      }
    case Chain(block, finalized) =>
      MonitorStepSound(txs, y, if finalized then Finalization(block) else BestBlock(block), y.requests);
  }

  lemma {:induction false} SystemExecSound(txs: seq<Task>, y: System, ls: seq<SystemLabel>)
    requires SystemSound(txs, y) && Distinct(Hashes(txs))
    ensures SystemSound(txs, SystemExec(y, ls))
    decreases |ls|
  {
    if ls != [] {
      SystemStepSound(txs, y, ls[0]);
      SystemExecSound(txs, SystemStep(y, ls[0]), ls[1..]);
    }
  }

  lemma {:induction false} SystemRunSound(threshold: nat, txs: seq<Task>, ls: seq<SystemLabel>)
    requires Distinct(Hashes(txs))
    ensures SystemSound(txs, SystemRun(threshold, txs, ls))
  {
    var y := System(Begin(threshold, true, txs), IDLE, [], []);
    BeginSound(threshold, txs);
    BeginCaused(threshold, txs, y);
    SystemExecSound(txs, y, ls);
  }

  lemma {:induction false} BeginSound(threshold: nat, txs: seq<Task>)
    requires Distinct(Hashes(txs))
    ensures RunnerSound(txs, Begin(threshold, true, txs))
  {
    var s := New(threshold, true, txs);
    NewGrammatical(threshold, true, txs);
    RefillGrammatical(txs, s, threshold);
    RefillBalances(s, threshold, 0);
    RefillKeepsOrder(txs, s, threshold);
    forall h ensures Occurrences(Refill(s, threshold), h) == TaskCount(txs, h) {
      RefillKeepsOccurrences(s, threshold, h);
    }
  }

  lemma {:induction false} BeginCaused(threshold: nat, txs: seq<Task>, y: System)
    requires y.runner == Begin(threshold, true, txs) && AllLogged(txs, y.runner)
    ensures AllCaused(txs, y)
  {
    var s := New(threshold, true, txs);
    forall k, e | 0 <= k < |txs| && e in y.runner.logs[txs[k].hash] ensures Caused(txs[k], y.history, e) {
      assert txs[k].hash == Hashes(txs)[k];
      assert s.logs[txs[k].hash] == [];
      RefillWrites(s, threshold, txs[k].hash, e);
    }
  }

  /** The log does not hold two submit results. */
  ghost predicate AnsweredOnce(log: seq<Event>) {
    forall i, j :: 0 <= i < j < |log| ==> !(IsAnswer(log[i]) && IsAnswer(log[j]))
  }

  /**
   * In every reachable state of the scheduler together with a live monitor, over distinct hashes:
   * a finished task's log holds exactly one submit result; `MortalDroppedMonitor(n)` appears only
   * in the log of a task valid until `n`; `FinalizedMonitor(b)` only for a finalized block `b` that
   * contained the transaction.
   */
  lemma {:induction false} SystemRunLogs(threshold: nat, txs: seq<Task>, ls: seq<SystemLabel>, k: nat)
    requires Distinct(Hashes(txs)) && k < |txs|
    ensures var y := SystemRun(threshold, txs, ls);
            var t, s := txs[k], y.runner;
            && t.hash in s.logs
            && AnsweredOnce(s.logs[t.hash])
            && (forall n: nat :: MortalDroppedMonitor(n) in s.logs[t.hash] ==> t.validUntil == Some(n))
            && (forall b :: FinalizedMonitor(b) in s.logs[t.hash] ==> Included(t.hash, y.history, b))
  {
    SystemRunSound(threshold, txs, ls);
    SoundLogs(txs, SystemRun(threshold, txs, ls), k);
  }

  lemma {:induction false} SoundLogs(txs: seq<Task>, y: System, k: nat)
    requires SystemSound(txs, y) && Distinct(Hashes(txs)) && k < |txs|
    ensures var log := y.runner.logs[txs[k].hash];
            && AnsweredOnce(log)
            && (forall n: nat :: MortalDroppedMonitor(n) in log ==> txs[k].validUntil == Some(n))
            && (forall b :: FinalizedMonitor(b) in log ==> Included(txs[k].hash, y.history, b))
  {
    var log := y.runner.logs[txs[k].hash];
    OneAnswerPerLog(txs, y.runner, k);
    forall n: nat | MortalDroppedMonitor(n) in log ensures txs[k].validUntil == Some(n) {
      assert Caused(txs[k], y.history, MortalDroppedMonitor(n));
    }
    forall b | FinalizedMonitor(b) in log ensures Included(txs[k].hash, y.history, b) {
      assert Caused(txs[k], y.history, FinalizedMonitor(b));
    }
  }

  /** `buffered` stays exact with a monitor: its replies are shown to be benign, not assumed to be. */
  lemma {:induction false} SystemRunBuffered(threshold: nat, txs: seq<Task>, ls: seq<SystemLabel>)
    requires Distinct(Hashes(txs)) && |txs| <= USIZE_MAX
    ensures var s := SystemRun(threshold, txs, ls).runner;
            Answered(s.tally) <= s.tally[CPopped] && Buffered(s.tally) == CountUnanswered(s.live)
  {
    SystemRunSound(threshold, txs, ls);
    BalancedIsExact(SystemRun(threshold, txs, ls).runner);
  }
}
