/**
 * The throttled scheduler (Runner in src/runner.rs) as a step system: what each branch of its
 * select loop does to the whole state. The sink is arbitrary here: every answer it gives, and
 * every pending count it reports, comes with the step. A step that cannot happen changes nothing.
 */
module Scheduler {
  import opened Wrappers
  import opened Transactions
  import opened ExecutionLog
  import opened TxTask

  datatype Phase = Running | AllFuturesDone | Stopped | TimedOut | Panicked

  /**
   * `Work`: worker `i` receives `input`; if that completes it, the refill that follows samples
   * `pending`. `SinkPanics`: a worker is polled and the sink's code panics.
   */
  datatype Label =
    | Work(i: nat, input: Input, pending: nat)
    | Tick(pending: nat)
    | Stop
    | Timeout
    | NoWorkers
    | SinkPanics(i: nat)

  /** `started` (tasks in the order they were popped) and `sampled` (the last pending count that
      was read) are history: no step depends on them. */
  datatype State = State(
    threshold: nat,
    monitored: bool,
    queue: seq<Task>,
    started: seq<Task>,
    live: seq<Worker>,
    done: seq<Hash>,
    errors: seq<Hash>,
    logs: map<Hash, seq<Event>>,
    tally: Tally,
    sampled: Option<nat>,
    phase: Phase)

  /** Every task that can still log has a log. */
  ghost predicate Valid(s: State) {
    && (forall i :: 0 <= i < |s.queue| ==> s.queue[i].hash in s.logs)
    && (forall i :: 0 <= i < |s.live| ==> s.live[i].task.hash in s.logs)
  }

  function Without<T>(xs: seq<T>, i: nat): (ys: seq<T>)
    requires i < |xs|
    ensures |ys| == |xs| - 1
    ensures forall j :: 0 <= j < i ==> ys[j] == xs[j]
    ensures forall j :: i <= j < |ys| ==> ys[j] == xs[j + 1]
  {
    xs[..i] + xs[i + 1..]
  }

  function Push(s: State, h: Hash, e: Event): State
    requires h in s.logs
  {
    s.(logs := s.logs[h := s.logs[h] + [e]], tally := Booked(s.tally, s.logs[h], e))
  }

  function PushAll(s: State, h: Hash, es: seq<Event>): (s': State)
    requires h in s.logs
    ensures s' == s.(logs := s'.logs, tally := s'.tally)
    ensures s'.logs == s.logs[h := s.logs[h] + es]
    decreases |es|
  {
    if es == [] then
      assert s.logs[h] + es == s.logs[h];
      s
    else
      assert s.logs[h] + es == s.logs[h] + [es[0]] + es[1..];
      PushAll(Push(s, h, es[0]), h, es[1..])
  }

  /** Pops the last queued task and makes it a worker. */
  function StartNext(s: State): State
    requires Valid(s) && s.queue != []
  {
    var t := s.queue[|s.queue| - 1];
    Push(s, t.hash, Popped).(
      queue := s.queue[..|s.queue| - 1],
      started := s.started + [t],
      live := s.live + [Worker(t, Fresh)])
  }

  /** Starts up to `budget` tasks. */
  function Refill(s: State, budget: nat): (s': State)
    requires Valid(s)
    ensures Valid(s')
    decreases |s.queue|
  {
    if budget == 0 || s.queue == [] then s else Refill(StartNext(s), budget - 1)
  }

  function SaturatingSub(a: nat, b: nat): nat {
    if a < b then 0 else a - b
  }

  /** How many tasks may be started now; an unlimited runner does not ask the sink. */
  function Budget(s: State, pending: nat): nat {
    if s.threshold == USIZE_MAX then USIZE_MAX
    else SaturatingSub(SaturatingSub(s.threshold, pending), Buffered(s.tally))
  }

  function Sampled(s: State, pending: nat): State {
    if s.threshold == USIZE_MAX then s else s.(sampled := Some(pending))
  }

  /** Samples the pending count and starts as many tasks as the budget allows. */
  function ConsumePending(s: State, pending: nat): (s': State)
    requires Valid(s)
    ensures Valid(s')
  {
    Refill(Sampled(s, pending), Budget(s, pending))
  }

  /** Worker `i` has returned and its result is recorded, but nothing is refilled yet. */
  function Returned(s: State, i: nat, es: seq<Event>, ok: bool): (s': State)
    requires Valid(s) && i < |s.live|
    ensures Valid(s')
  {
    var h := s.live[i].task.hash;
    PushAll(s, h, es).(
      live := Without(s.live, i),
      done := if ok then s.done + [h] else s.done,
      errors := if ok then s.errors else s.errors + [h])
  }

  function Advanced(s: State, i: nat, e: Event, next: Stage): (s': State)
    requires Valid(s) && i < |s.live|
    ensures Valid(s')
  {
    Push(s, s.live[i].task.hash, e).(live := s.live[i := Worker(s.live[i].task, next)])
  }

  /**
   * What becomes of the state when worker `i` reacts. The code refills before it records the result of a returned
   * worker; `RefillIgnoresResults` shows that the order makes no difference.
   */
  function Apply(s: State, i: nat, r: Reaction, pending: nat): (s': State)
    requires Valid(s) && i < |s.live|
    ensures Valid(s')
  {
    match r
    case Ignored => s
    case Continues(e, next) => Advanced(s, i, e, next)
    case Returns(es, ok) => ConsumePending(Returned(s, i, es, ok), pending)
  }

  /** One branch of the select loop. */
  function Step(s: State, l: Label): (s': State)
    requires Valid(s)
    ensures Valid(s')
  {
    if !s.phase.Running? then s
    else
      match l
      case Work(i, input, pending) =>
        if i >= |s.live| then s else Apply(s, i, React(s.live[i], s.monitored, input), pending)
      case Tick(pending) => ConsumePending(s, pending)
      case Stop => s.(phase := Stopped)
      case Timeout => s.(phase := TimedOut)
      case NoWorkers => if s.live == [] then s.(phase := AllFuturesDone) else s
      case SinkPanics(i) => if i < |s.live| then s.(phase := Panicked) else s
  }

  function Exec(s: State, ls: seq<Label>): (s': State)
    requires Valid(s)
    ensures Valid(s')
    decreases |ls|
  {
    if ls == [] then s else Exec(Step(s, ls[0]), ls[1..])
  }

  /** A new runner: nothing popped, one empty log per transaction hash. */
  function New(threshold: nat, monitored: bool, txs: seq<Task>): (s: State)
    ensures Valid(s)
  {
    State(threshold, monitored, txs, [], [], [], [],
      map h | h in Hashes(txs) :: [], multiset{}, None, Running)
  }

  /** The state in which the select loop starts, after the initial fill. */
  function Begin(threshold: nat, monitored: bool, txs: seq<Task>): (s: State)
    ensures Valid(s)
  {
    Refill(New(threshold, monitored, txs), threshold)
  }

  /** The state after the select loop has gone through the branches `ls`. */
  function Run(threshold: nat, monitored: bool, txs: seq<Task>, ls: seq<Label>): (s: State)
    ensures Valid(s)
  {
    Exec(Begin(threshold, monitored, txs), ls)
  }

  // ---- Occurrences of a hash and the count of unanswered submissions ----

  function TaskCount(tasks: seq<Task>, h: Hash): nat {
    if tasks == [] then 0
    else TaskCount(tasks[..|tasks| - 1], h) + (if tasks[|tasks| - 1].hash == h then 1 else 0)
  }

  function LiveCount(live: seq<Worker>, h: Hash): nat {
    if live == [] then 0
    else LiveCount(live[..|live| - 1], h) + (if live[|live| - 1].task.hash == h then 1 else 0)
  }

  function HashCount(hs: seq<Hash>, h: Hash): nat {
    if hs == [] then 0
    else HashCount(hs[..|hs| - 1], h) + (if hs[|hs| - 1] == h then 1 else 0)
  }

  /** The number of live workers whose submission has not been answered. */
  function CountUnanswered(live: seq<Worker>): nat {
    if live == [] then 0
    else CountUnanswered(live[..|live| - 1]) + (if Unanswered(live[|live| - 1].stage) then 1 else 0)
  }

  lemma {:induction false} LiveAppend(live: seq<Worker>, w: Worker, h: Hash)
    ensures LiveCount(live + [w], h) == LiveCount(live, h) + (if w.task.hash == h then 1 else 0)
    ensures CountUnanswered(live + [w]) == CountUnanswered(live) + (if Unanswered(w.stage) then 1 else 0)
  {
    assert (live + [w])[..|live|] == live;
  }

  lemma {:induction false} HashAppend(hs: seq<Hash>, x: Hash, h: Hash)
    ensures HashCount(hs + [x], h) == HashCount(hs, h) + (if x == h then 1 else 0)
  {
    assert (hs + [x])[..|hs|] == hs;
  }

  lemma {:induction false} LiveWithout(live: seq<Worker>, i: nat, h: Hash)
    requires i < |live|
    ensures LiveCount(Without(live, i), h) + (if live[i].task.hash == h then 1 else 0) == LiveCount(live, h)
    ensures CountUnanswered(Without(live, i)) + (if Unanswered(live[i].stage) then 1 else 0) == CountUnanswered(live)
  {
    var n := |live| - 1;
    if i == n {
      assert Without(live, i) == live[..n];
    } else {
      LiveWithout(live[..n], i, h);
      assert Without(live, i) == Without(live[..n], i) + [live[n]];
      LiveAppend(Without(live[..n], i), live[n], h);
    }
  }

  lemma {:induction false} LiveUpdate(live: seq<Worker>, i: nat, next: Stage, h: Hash)
    requires i < |live|
    ensures var live' := live[i := Worker(live[i].task, next)];
            && LiveCount(live', h) == LiveCount(live, h)
            && CountUnanswered(live') + (if Unanswered(live[i].stage) then 1 else 0)
            == CountUnanswered(live) + (if Unanswered(next) then 1 else 0)
  {
    var n := |live| - 1;
    var live' := live[i := Worker(live[i].task, next)];
    if i == n {
      assert live'[..n] == live[..n];
    } else {
      LiveUpdate(live[..n], i, next, h);
      assert live'[..n] == live[..n][i := Worker(live[i].task, next)];
    }
  }

  // ---- Refilling ----

  lemma {:induction false} StartIgnoresResults(s: State, done: seq<Hash>, errors: seq<Hash>)
    requires Valid(s) && s.queue != []
    ensures Valid(s.(done := done, errors := errors))
    ensures StartNext(s.(done := done, errors := errors)) == StartNext(s).(done := done, errors := errors)
  {
  }

  lemma {:induction false} RefillIgnoresResults(s: State, budget: nat, done: seq<Hash>, errors: seq<Hash>)
    requires Valid(s)
    ensures Valid(s.(done := done, errors := errors))
    ensures Refill(s.(done := done, errors := errors), budget) == Refill(s, budget).(done := done, errors := errors)
    decreases |s.queue|
  {
    if budget != 0 && s.queue != [] {
      StartIgnoresResults(s, done, errors);
      RefillIgnoresResults(StartNext(s), budget - 1, done, errors);
    }
  }

  /** Refilling only moves tasks from the queue to fresh workers. */
  lemma {:induction false} RefillFrame(s: State, budget: nat)
    requires Valid(s)
    ensures var s' := Refill(s, budget);
            && s' == s.(queue := s'.queue, started := s'.started, live := s'.live, logs := s'.logs, tally := s'.tally)
            && |s'.queue| == SaturatingSub(|s.queue|, budget)
            && |s'.live| + |s'.queue| == |s.live| + |s.queue|
            && s'.logs.Keys == s.logs.Keys
    decreases |s.queue|
  {
    if budget != 0 && s.queue != [] {
      RefillFrame(StartNext(s), budget - 1);
    }
  }

  // ---- Conservation and dispatch order: no premise ----

  /** How often a hash is queued, live, done or failed. */
  function Occurrences(s: State, h: Hash): nat {
    TaskCount(s.queue, h) + LiveCount(s.live, h) + HashCount(s.done, h) + HashCount(s.errors, h)
  }

  /** Tasks are popped from the end of `txs`, each once. */
  ghost predicate InOrder(txs: seq<Task>, s: State) {
    && |s.started| + |s.queue| == |txs|
    && (forall j :: 0 <= j < |s.queue| ==> s.queue[j] == txs[j])
    && (forall j :: 0 <= j < |s.started| ==> s.started[j] == txs[|txs| - 1 - j])
  }

  /** Every task, started or not, has a log. */
  ghost predicate AllLogged(txs: seq<Task>, s: State) {
    forall j :: 0 <= j < |txs| ==> txs[j].hash in s.logs
  }

  lemma {:induction false} RefillKeepsOccurrences(s: State, budget: nat, h: Hash)
    requires Valid(s)
    ensures Occurrences(Refill(s, budget), h) == Occurrences(s, h)
    decreases |s.queue|
  {
    if budget != 0 && s.queue != [] {
      LiveAppend(s.live, Worker(s.queue[|s.queue| - 1], Fresh), h);
      RefillKeepsOccurrences(StartNext(s), budget - 1, h);
    }
  }

  lemma {:induction false} ConsumeKeepsOccurrences(s: State, pending: nat, h: Hash)
    requires Valid(s)
    ensures Occurrences(ConsumePending(s, pending), h) == Occurrences(s, h)
  {
    RefillKeepsOccurrences(Sampled(s, pending), Budget(s, pending), h);
  }

  lemma {:induction false} ReturnedKeepsOccurrences(s: State, i: nat, es: seq<Event>, ok: bool, h: Hash)
    requires Valid(s) && i < |s.live|
    ensures Occurrences(Returned(s, i, es, ok), h) == Occurrences(s, h)
  {
    LiveWithout(s.live, i, h);
    HashAppend(if ok then s.done else s.errors, s.live[i].task.hash, h);
  }

  lemma {:induction false} ApplyKeepsOccurrences(s: State, i: nat, r: Reaction, pending: nat, h: Hash)
    requires Valid(s) && i < |s.live|
    ensures Occurrences(Apply(s, i, r, pending), h) == Occurrences(s, h)
  {
    match r
    case Ignored =>
    case Continues(e, next) => LiveUpdate(s.live, i, next, h);
    case Returns(es, ok) =>
      ReturnedKeepsOccurrences(s, i, es, ok, h);
      ConsumeKeepsOccurrences(Returned(s, i, es, ok), pending, h);
  }

  /** No step loses or duplicates a hash. */
  lemma {:induction false} StepKeepsOccurrences(s: State, l: Label, h: Hash)
    requires Valid(s)
    ensures Occurrences(Step(s, l), h) == Occurrences(s, h)
  {
    if l.Tick? {
      ConsumeKeepsOccurrences(s, l.pending, h);
    } else if l.Work? && l.i < |s.live| {
      ApplyKeepsOccurrences(s, l.i, React(s.live[l.i], s.monitored, l.input), l.pending, h);
    }
  }

  lemma {:induction false} ExecKeepsOccurrences(s: State, ls: seq<Label>, h: Hash)
    requires Valid(s)
    ensures Occurrences(Exec(s, ls), h) == Occurrences(s, h)
    decreases |ls|
  {
    if ls != [] {
      StepKeepsOccurrences(s, ls[0], h);
      ExecKeepsOccurrences(Step(s, ls[0]), ls[1..], h);
    }
  }

  lemma {:induction false} RefillKeepsOrder(txs: seq<Task>, s: State, budget: nat)
    requires Valid(s) && InOrder(txs, s)
    ensures InOrder(txs, Refill(s, budget))
    decreases |s.queue|
  {
    if budget != 0 && s.queue != [] {
      assert InOrder(txs, StartNext(s));
      RefillKeepsOrder(txs, StartNext(s), budget - 1);
    }
  }

  lemma {:induction false} ApplyKeepsOrder(txs: seq<Task>, s: State, i: nat, r: Reaction, pending: nat)
    requires Valid(s) && i < |s.live| && InOrder(txs, s)
    ensures InOrder(txs, Apply(s, i, r, pending))
  {
    if r.Returns? {
      var s1 := Returned(s, i, r.events, r.ok);
      RefillKeepsOrder(txs, Sampled(s1, pending), Budget(s1, pending));
    }
  }

  lemma {:induction false} StepKeepsOrder(txs: seq<Task>, s: State, l: Label)
    requires Valid(s) && InOrder(txs, s)
    ensures InOrder(txs, Step(s, l))
  {
    if l.Tick? {
      RefillKeepsOrder(txs, Sampled(s, l.pending), Budget(s, l.pending));
    } else if l.Work? && l.i < |s.live| {
      ApplyKeepsOrder(txs, s, l.i, React(s.live[l.i], s.monitored, l.input), l.pending);
    }
  }

  lemma {:induction false} ExecKeepsOrder(txs: seq<Task>, s: State, ls: seq<Label>)
    requires Valid(s) && InOrder(txs, s)
    ensures InOrder(txs, Exec(s, ls))
    decreases |ls|
  {
    if ls != [] {
      StepKeepsOrder(txs, s, ls[0]);
      ExecKeepsOrder(txs, Step(s, ls[0]), ls[1..]);
    }
  }

  lemma {:induction false} ApplyKeepsLogs(s: State, i: nat, r: Reaction, pending: nat)
    requires Valid(s) && i < |s.live|
    ensures Apply(s, i, r, pending).logs.Keys == s.logs.Keys
  {
    if r.Returns? {
      var s1 := Returned(s, i, r.events, r.ok);
      RefillFrame(Sampled(s1, pending), Budget(s1, pending));
    }
  }

  lemma {:induction false} StepKeepsLogs(s: State, l: Label)
    requires Valid(s)
    ensures Step(s, l).logs.Keys == s.logs.Keys
  {
    if l.Tick? {
      RefillFrame(Sampled(s, l.pending), Budget(s, l.pending));
    } else if l.Work? && l.i < |s.live| {
      ApplyKeepsLogs(s, l.i, React(s.live[l.i], s.monitored, l.input), l.pending);
    }
  }

  lemma {:induction false} ExecKeepsLogs(s: State, ls: seq<Label>)
    requires Valid(s)
    ensures Exec(s, ls).logs.Keys == s.logs.Keys
    decreases |ls|
  {
    if ls != [] {
      StepKeepsLogs(s, ls[0]);
      ExecKeepsLogs(Step(s, ls[0]), ls[1..]);
    }
  }

  lemma {:induction false} TaskCountIsMultiset(tasks: seq<Task>, h: Hash)
    ensures TaskCount(tasks, h) == multiset(Hashes(tasks))[h]
  {
    if tasks != [] {
      var n := |tasks| - 1;
      TaskCountIsMultiset(tasks[..n], h);
      assert Hashes(tasks) == Hashes(tasks[..n]) + [tasks[n].hash];
    }
  }

  lemma {:induction false} LiveCountIsMultiset(live: seq<Worker>, h: Hash)
    ensures LiveCount(live, h) == multiset(LiveHashes(live))[h]
  {
    if live != [] {
      var n := |live| - 1;
      LiveCountIsMultiset(live[..n], h);
      assert LiveHashes(live) == LiveHashes(live[..n]) + [live[n].task.hash];
    }
  }

  lemma {:induction false} HashCountIsMultiset(hs: seq<Hash>, h: Hash)
    ensures HashCount(hs, h) == multiset(hs)[h]
  {
    if hs != [] {
      var n := |hs| - 1;
      HashCountIsMultiset(hs[..n], h);
      assert hs == hs[..n] + [hs[n]];
    }
  }

  function LiveHashes(live: seq<Worker>): (hs: seq<Hash>)
    ensures |hs| == |live|
    ensures forall i :: 0 <= i < |live| ==> hs[i] == live[i].task.hash
  {
    seq(|live|, i requires 0 <= i < |live| => live[i].task.hash)
  }

  /**
   * In every reachable state, interrupted or not: the queued, live, done and failed hashes are
   * together the given ones, counted with multiplicity.
   */
  lemma {:induction false} RunConservesTasks(threshold: nat, monitored: bool, txs: seq<Task>, ls: seq<Label>)
    ensures var s := Run(threshold, monitored, txs, ls);
            multiset(Hashes(s.queue)) + multiset(LiveHashes(s.live)) + multiset(s.done) + multiset(s.errors)
            == multiset(Hashes(txs))
  {
    var s := Run(threshold, monitored, txs, ls);
    forall h ensures Occurrences(s, h) == TaskCount(txs, h) {
      RefillKeepsOccurrences(New(threshold, monitored, txs), threshold, h);
      ExecKeepsOccurrences(Begin(threshold, monitored, txs), ls, h);
    }
    var all := multiset(Hashes(s.queue)) + multiset(LiveHashes(s.live)) + multiset(s.done) + multiset(s.errors);
    forall h ensures all[h] == multiset(Hashes(txs))[h] {
      TaskCountIsMultiset(s.queue, h);
      LiveCountIsMultiset(s.live, h);
      HashCountIsMultiset(s.done, h);
      HashCountIsMultiset(s.errors, h);
      TaskCountIsMultiset(txs, h);
    }
  }

  /** In every reachable state the tasks popped so far are a prefix of `txs` read from its end, none
      of them popped twice, and every task has a log. */
  lemma {:induction false} RunDispatchesInOrder(threshold: nat, monitored: bool, txs: seq<Task>, ls: seq<Label>)
    ensures var s := Run(threshold, monitored, txs, ls);
            InOrder(txs, s) && AllLogged(txs, s)
  {
    var s := New(threshold, monitored, txs);
    RefillKeepsOrder(txs, s, threshold);
    RefillFrame(s, threshold);
    var s0 := Begin(threshold, monitored, txs);
    ExecKeepsOrder(txs, s0, ls);
    ExecKeepsLogs(s0, ls);
    forall j | 0 <= j < |txs| ensures txs[j].hash in s.logs {
      assert txs[j].hash == Hashes(txs)[j];
    }
  }
}
