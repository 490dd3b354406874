/**
 * The runner object (src/runner.rs) with its queue, logs, counters and worker set updated in place,
 * proved against the step system of `Scheduler`.
 */
module Runner {
  import opened Wrappers
  import opened Transactions
  import opened ExecutionLog
  import opened TxTask
  import opened Scheduler

  /** Among the first `n` tasks, task `j` is the last one of its hash. */
  predicate LastOfHash(tasks: seq<Task>, n: nat, j: int)
    requires n <= |tasks|
  {
    0 <= j < n && forall i :: j < i < n ==> tasks[i].hash != tasks[j].hash
  }

  /** The task has a log with its own nonce and account. */
  predicate LogOf(logs: map<Hash, TransactionExecutionLog>, t: Task) {
    t.hash in logs && logs[t.hash].nonce == t.nonce && logs[t.hash].account == t.account
  }

  /** Each of the first `n` tasks that no later one shares the hash of has its own log. */
  ghost predicate OwnLogs(logs: map<Hash, TransactionExecutionLog>, tasks: seq<Task>, n: nat)
    requires n <= |tasks|
  {
    forall j :: LastOfHash(tasks, n, j) ==> LogOf(logs, tasks[j])
  }

  class Runner {
    const sendThreshold: nat
    const monitored: bool
    const eventCounters: Counters
    var logs: map<Hash, TransactionExecutionLog>
    var transactions: seq<Task>
    var workers: seq<Worker>
    var done: seq<Hash>
    var errors: seq<Hash>
    var phase: Phase
    ghost var started: seq<Task>
    ghost var sampled: Option<nat>

    ghost function View(): State
      reads this, eventCounters, logs.Values
    {
      State(sendThreshold, monitored, transactions, started, workers, done, errors,
        map h | h in logs :: logs[h].events, eventCounters.tally, sampled, phase)
    }

    /** Each transaction has its own log, and all logs share the counters. */
    ghost predicate Consistent()
      reads this, eventCounters, logs.Values
    {
      && (forall h :: h in logs ==> logs[h].hash == h && logs[h].totalCounters == eventCounters)
      && Valid(View())
    }

    constructor (sendThreshold: nat, monitored: bool, transactions: seq<Task>)
      ensures Consistent() && View() == Scheduler.New(sendThreshold, monitored, transactions)
      ensures fresh(eventCounters) && fresh(logs.Values)
      ensures OwnLogs(logs, transactions, |transactions|)
    {
      var counters := new Counters();
      this.sendThreshold, this.monitored, this.eventCounters := sendThreshold, monitored, counters;
      this.logs := map[];
      this.transactions, this.workers, this.done, this.errors := transactions, [], [], [];
      this.phase, this.started, this.sampled := Running, [], None;
      new;
      OpenLogs();
      FreshLogs();
    }

    /** The state of a runner with nothing but empty logs. */
    lemma {:induction false} FreshLogs()
      requires forall h :: h in logs <==> h in Hashes(transactions)
      requires forall h :: h in logs ==> logs[h].events == []
      ensures (map h | h in logs :: logs[h].events) == map h | h in Hashes(transactions) :: []
    {
    }

    /** Gives every transaction an empty log; of transactions with the same hash the last one counts. */
    method OpenLogs()
      requires logs == map[]
      modifies this`logs
      ensures forall h :: h in logs <==> h in Hashes(transactions)
      ensures forall h :: h in logs ==> logs[h].hash == h && logs[h].totalCounters == eventCounters
      ensures forall h :: h in logs ==> logs[h].events == [] && fresh(logs[h])
      ensures OwnLogs(logs, transactions, |transactions|)
    {
      ghost var hs := Hashes(transactions);
      var i := 0;
      while i < |transactions|
        invariant 0 <= i <= |transactions|
        invariant forall j :: 0 <= j < i ==> hs[j] in logs
        invariant forall h :: h in logs ==> h in hs
        invariant forall h :: h in logs ==> logs[h].hash == h && logs[h].totalCounters == eventCounters
        invariant forall h :: h in logs ==> logs[h].events == [] && fresh(logs[h])
        invariant OwnLogs(logs, transactions, i)
      {
        var log := new TransactionExecutionLog(transactions[i], eventCounters);
        assert hs[i] in hs;
        logs := logs[transactions[i].hash := log];
        i := i + 1;
      }
    }

    method PushEvent(h: Hash, e: Event)
      requires Consistent() && h in logs
      modifies logs.Values, eventCounters
      ensures Consistent() && View() == Push(old(View()), h, e)
    {
      ghost var before := View();
      logs[h].PushEvent(e);
      assert View().logs == before.logs[h := before.logs[h] + [e]];
    }

    method Pop() returns (task: Option<Task>)
      requires Consistent()
      modifies this`transactions, this`started
      ensures Consistent() && logs == old(logs)
      ensures task.None? <==> old(transactions) == []
      ensures task.None? ==> View() == old(View())
      ensures task.Some? ==>
        var s := old(View());
        && task.value == s.queue[|s.queue| - 1] && task.value.hash in logs
        && View() == s.(queue := s.queue[..|s.queue| - 1], started := s.started + [task.value])
    {
      if transactions == [] {
        return None;
      }
      task := Some(transactions[|transactions| - 1]);
      assert View().queue[|transactions| - 1].hash in View().logs;
      transactions := transactions[..|transactions| - 1];
      started := started + [task.value];
    }

    /** Logs that the task was popped and pushes its future to the worker set. */
    method Launch(task: Task)
      requires Consistent() && task.hash in logs
      modifies this`workers, eventCounters, logs.Values
      ensures Consistent() && logs == old(logs)
      ensures View() == Push(old(View()), task.hash, Popped).(live := old(workers) + [Worker(task, Fresh)])
    {
      PushEvent(task.hash, Popped);
      AddWorker(Worker(task, Fresh));
    }

    method AddWorker(w: Worker)
      requires Consistent() && w.task.hash in logs
      modifies this`workers
      ensures Consistent() && View() == old(View()).(live := old(workers) + [w])
    {
      workers := workers + [w];
    }

    /** Pops the next task, if any, and starts it. */
    method StartWorker() returns (started: bool)
      requires Consistent()
      modifies this`transactions, this`started, this`workers, eventCounters, logs.Values
      ensures Consistent() && logs == old(logs)
      ensures started <==> old(transactions) != []
      ensures View() == if started then StartNext(old(View())) else old(View())
    {
      var task := Pop();
      if task.None? {
        return false;
      }
      Launch(task.value);
      started := true;
    }

    /** Starts up to `count` tasks, stopping early when the queue runs out. */
    method StartWorkers(count: nat)
      requires Consistent()
      modifies this`transactions, this`started, this`workers, eventCounters, logs.Values
      ensures Consistent() && View() == Refill(old(View()), count)
      ensures logs == old(logs)
    {
      ghost var now, goal := View(), Refill(View(), count);
      var k := 0;
      while k < count
        invariant 0 <= k <= count
        invariant Consistent() && View() == now && logs == old(logs)
        invariant Refill(now, count - k) == goal
      {
        var more := StartWorker();
        if !more {
          break;
        }
        assert goal == Refill(StartNext(now), count - k - 1);
        now := StartNext(now);
        k := k + 1;
      }
    }

    method ConsumePending(pending: nat)
      requires Consistent()
      modifies this`transactions, this`started, this`workers, this`sampled, eventCounters, logs.Values
      ensures Consistent() && View() == Scheduler.ConsumePending(old(View()), pending)
      ensures logs == old(logs)
    {
      var toConsume := BudgetFor(pending);
      if sendThreshold != USIZE_MAX {
        sampled := Some(pending);
      }
      assert View() == Sampled(old(View()), pending);
      StartWorkers(toConsume);
    }

    method BudgetFor(pending: nat) returns (toConsume: nat)
      ensures toConsume == Budget(View(), pending)
    {
      toConsume := USIZE_MAX;
      if sendThreshold != USIZE_MAX {
        var buffered := eventCounters.GetBuffered();
        toConsume := SaturatingSub(SaturatingSub(sendThreshold, pending), buffered);
      }
    }

    method PushEvents(h: Hash, es: seq<Event>)
      requires Consistent() && h in logs
      modifies logs.Values, eventCounters
      ensures Consistent() && View() == PushAll(old(View()), h, es)
    {
      ghost var goal := PushAll(View(), h, es);
      var k := 0;
      assert es[k..] == es;
      while k < |es|
        invariant 0 <= k <= |es|
        invariant Consistent() && PushAll(View(), h, es[k..]) == goal
      {
        assert es[k..][1..] == es[k + 1..];
        PushEvent(h, es[k]);
        k := k + 1;
      }
    }

    /** Polls worker `i` with an answer; a worker that returns leaves the worker set. */
    method PollWorker(i: nat, input: Input) returns (result: Option<bool>)
      requires Consistent() && i < |workers|
      modifies this`workers, eventCounters, logs.Values
      ensures Consistent() && logs == old(logs)
      ensures var s, r := old(View()), React(old(workers[i]), monitored, input);
              match r
              case Ignored => result == None && View() == s
              case Continues(e, next) => result == None && View() == Advanced(s, i, e, next)
              case Returns(es, ok) =>
                result == Some(ok) && View() == PushAll(s, s.live[i].task.hash, es).(live := Without(s.live, i))
    {
      result := PollReaction(i, React(workers[i], monitored, input));
    }

    /** Worker `i` logs an event and goes on to await something else. */
    method Advance(i: nat, e: Event, next: Stage)
      requires Consistent() && i < |workers|
      modifies this`workers, eventCounters, logs.Values
      ensures Consistent() && logs == old(logs)
      ensures View() == Advanced(old(View()), i, e, next)
    {
      var task := workers[i].task;
      PushEvent(task.hash, e);
      workers := workers[i := Worker(task, next)];
    }

    /** Worker `i` logs its last events and leaves the worker set. */
    method Retire(i: nat, es: seq<Event>)
      requires Consistent() && i < |workers|
      modifies this`workers, eventCounters, logs.Values
      ensures Consistent() && logs == old(logs)
      ensures var s := old(View()); View() == PushAll(s, s.live[i].task.hash, es).(live := Without(s.live, i))
    {
      PushEvents(workers[i].task.hash, es);
      workers := Without(workers, i);
    }

    method PollReaction(i: nat, r: Reaction) returns (result: Option<bool>)
      requires Consistent() && i < |workers|
      modifies this`workers, eventCounters, logs.Values
      ensures Consistent() && logs == old(logs)
      ensures var s := old(View());
              match r
              case Ignored => result == None && View() == s
              case Continues(e, next) => result == None && View() == Advanced(s, i, e, next)
              case Returns(es, ok) =>
                result == Some(ok) && View() == PushAll(s, s.live[i].task.hash, es).(live := Without(s.live, i))
    {
      match r {
        case Ignored =>
          result := None;
        case Continues(e, next) =>
          Advance(i, e, next);
          result := None;
        case Returns(es, ok) =>
          Retire(i, es);
          result := Some(ok);
      }
    }

    /** Drives the runner through the select branches `schedule`, starting with the initial fill. */
    method Run(schedule: seq<Label>)
      requires Consistent()
      modifies this, eventCounters, logs.Values
      ensures Consistent() && logs == old(logs)
      ensures View() == Exec(Refill(old(View()), sendThreshold), schedule)
    {
      StartWorkers(sendThreshold);
      ghost var goal := Exec(View(), schedule);
      var k := 0;
      assert schedule[k..] == schedule;
      while k < |schedule|
        invariant 0 <= k <= |schedule|
        invariant Consistent() && logs == old(logs)
        invariant Exec(View(), schedule[k..]) == goal
      {
        assert schedule[k..][1..] == schedule[k + 1..];
        Select(schedule[k]);
        k := k + 1;
      }
    }

    /** One iteration of the select loop. */
    method Select(l: Label)
      requires Consistent()
      modifies this, eventCounters, logs.Values
      ensures Consistent() && logs == old(logs)
      ensures View() == Step(old(View()), l)
    {
      if phase != Running {
        return;
      }
      match l {
        case Timeout => phase := TimedOut;
        case Stop => phase := Stopped;
        case Tick(pending) => ConsumePending(pending);
        case NoWorkers =>
          if workers == [] {
            phase := AllFuturesDone;
          }
        case SinkPanics(i) =>
          if i < |workers| {
            phase := Panicked;
          }
        case Work(i, input, pending) =>
          if i < |workers| {
            Next(i, input, pending);
          }
      }
    }

    /** The branch of `workers.next()`: a poll of worker `i`, and what follows if it returns. */
    method Next(i: nat, input: Input, pending: nat)
      requires Consistent() && i < |workers|
      modifies this, eventCounters, logs.Values
      ensures Consistent() && logs == old(logs)
      ensures View() == Apply(old(View()), i, React(old(workers[i]), monitored, input), pending)
    {
      var hash := workers[i].task.hash;
      var result := PollWorker(i, input);
      if result.Some? {
        Complete(hash, result.value, pending);
      }
    }

    /** Refills the worker set, then records the result of the worker that has returned. */
    method Complete(hash: Hash, ok: bool, pending: nat)
      requires Consistent()
      modifies this, eventCounters, logs.Values
      ensures Consistent() && logs == old(logs)
      ensures var s := old(View());
              View() == Scheduler.ConsumePending(
                s.(done := if ok then s.done + [hash] else s.done,
                   errors := if ok then s.errors else s.errors + [hash]), pending)
    {
      ghost var s := View();
      RefillIgnoresResults(Sampled(s, pending), Budget(s, pending),
        if ok then s.done + [hash] else s.done, if ok then s.errors else s.errors + [hash]);
      RefillFrame(Sampled(s, pending), Budget(s, pending));
      ConsumePending(pending);
      Record(hash, ok);
    }

    method Record(hash: Hash, ok: bool)
      requires Consistent()
      modifies this`done, this`errors
      ensures Consistent() && logs == old(logs)
      ensures var s := old(View());
              View() == s.(done := if ok then s.done + [hash] else s.done,
                           errors := if ok then s.errors else s.errors + [hash])
    {
      if ok {
        done := done + [hash];
      } else {
        errors := errors + [hash];
      }
    }
  }
}
