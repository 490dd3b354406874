/**
 * What the scheduler's budget rests on: the shared counters are a recount of all logs, and the
 * buffered count is the number of popped tasks whose submission has not been answered.
 */
module Budgeting {
  import opened Arithmetic
  import opened Transactions
  import opened ExecutionLog
  import opened TxTask
  import opened Scheduler

  // ---- The counters are a recount of the logs ----

  lemma {:induction false} PushAllKeepsTallyExact(s: State, h: Hash, es: seq<Event>)
    requires h in s.logs && TallyExact(s.logs, s.tally)
    ensures var s' := PushAll(s, h, es); TallyExact(s'.logs, s'.tally)
    decreases |es|
  {
    if es != [] {
      PushKeepsTallyExact(s.logs, s.tally, h, es[0]);
      PushAllKeepsTallyExact(Push(s, h, es[0]), h, es[1..]);
    }
  }

  lemma {:induction false} RefillKeepsTallyExact(s: State, budget: nat)
    requires Valid(s) && TallyExact(s.logs, s.tally)
    ensures var s' := Refill(s, budget); TallyExact(s'.logs, s'.tally)
    decreases |s.queue|
  {
    if budget != 0 && s.queue != [] {
      PushKeepsTallyExact(s.logs, s.tally, s.queue[|s.queue| - 1].hash, Popped);
      RefillKeepsTallyExact(StartNext(s), budget - 1);
    }
  }

  lemma {:induction false} ApplyKeepsTallyExact(s: State, i: nat, r: Reaction, pending: nat)
    requires Valid(s) && i < |s.live| && TallyExact(s.logs, s.tally)
    ensures var s' := Apply(s, i, r, pending); TallyExact(s'.logs, s'.tally)
  {
    var h := s.live[i].task.hash;
    match r
    case Ignored =>
    case Continues(e, next) => PushKeepsTallyExact(s.logs, s.tally, h, e);
    case Returns(es, ok) =>
      var s1 := Returned(s, i, es, ok);
      PushAllKeepsTallyExact(s, h, es);
      RefillKeepsTallyExact(Sampled(s1, pending), Budget(s1, pending));
  }

  lemma {:induction false} StepKeepsTallyExact(s: State, l: Label)
    requires Valid(s) && TallyExact(s.logs, s.tally)
    ensures var s' := Step(s, l); TallyExact(s'.logs, s'.tally)
  {
    if l.Tick? {
      RefillKeepsTallyExact(Sampled(s, l.pending), Budget(s, l.pending));
    } else if l.Work? && l.i < |s.live| {
      ApplyKeepsTallyExact(s, l.i, React(s.live[l.i], s.monitored, l.input), l.pending);
    }
  }

  lemma {:induction false} ExecKeepsTallyExact(s: State, ls: seq<Label>)
    requires Valid(s) && TallyExact(s.logs, s.tally)
    ensures var s' := Exec(s, ls); TallyExact(s'.logs, s'.tally)
    decreases |ls|
  {
    if ls != [] {
      StepKeepsTallyExact(s, ls[0]);
      ExecKeepsTallyExact(Step(s, ls[0]), ls[1..]);
    }
  }

  /** In every reachable state each counter equals a recount of all logs. */
  lemma {:induction false} RunKeepsTallyExact(threshold: nat, monitored: bool, txs: seq<Task>, ls: seq<Label>)
    ensures var s := Run(threshold, monitored, txs, ls); TallyExact(s.logs, s.tally)
  {
    var s := New(threshold, monitored, txs);
    forall k ensures s.tally[k] == Recount(s.logs, s.logs.Keys, k) {
      RecountEmpty(s.logs, s.logs.Keys, k);
    }
    RefillKeepsTallyExact(s, threshold);
    ExecKeepsTallyExact(Begin(threshold, monitored, txs), ls);
  }

  // ---- The buffered count is exact ----

  function Answered(tally: Tally): nat {
    tally[CWatchSuccess] + tally[CWatchError] + tally[CSubmitSuccess] + tally[CSubmitError]
  }

  /** Every popped task is answered once or still unanswered, except for `surplus` second answers. */
  ghost predicate BalancedBut(s: State, surplus: nat) {
    && s.tally[CPopped] == |s.started|
    && s.tally[CPopped] + surplus == Answered(s.tally) + CountUnanswered(s.live)
  }

  ghost predicate Balanced(s: State) {
    BalancedBut(s, 0)
  }

  lemma {:induction false} BookedAnswers(tally: Tally, log: seq<Event>, e: Event)
    ensures Answered(Booked(tally, log, e)) == Answered(tally) + (if IsAnswer(e) then 1 else 0)
    ensures Booked(tally, log, e)[CPopped] == tally[CPopped] + (if e.Popped? then 1 else 0)
  {
  }

  function AnswersIn(es: seq<Event>): nat {
    if es == [] then 0 else (if IsAnswer(es[0]) then 1 else 0) + AnswersIn(es[1..])
  }

  /** The second answer a worker logs for a monitor error other than mortal expiry. */
  function SecondAnswer(w: Worker, input: Input): nat {
    if w.stage.Waiting? && !Benign(input) then 1 else 0
  }

  /** A reaction logs an answer when the worker stops being unanswered, and `surplus` more. */
  ghost predicate Answers(stage: Stage, r: Reaction, surplus: nat) {
    var before := if Unanswered(stage) then 1 else 0;
    match r
    case Ignored => surplus == 0
    case Continues(e, next) =>
      !e.Popped? && (if IsAnswer(e) then 1 else 0) + (if Unanswered(next) then 1 else 0) == before + surplus
    case Returns(es, _) =>
      AnswersIn(es) == before + surplus && forall e :: e in es ==> !e.Popped?
  }

  lemma {:induction false} ReactAnswers(w: Worker, monitored: bool, input: Input)
    ensures Answers(w.stage, React(w, monitored, input), SecondAnswer(w, input))
  {
    var r := React(w, monitored, input);
    if r.Returns? && r.events != [] {
      assert r.events[1..] == [];
    }
  }

  lemma {:induction false} PushAllAnswers(s: State, h: Hash, es: seq<Event>)
    requires h in s.logs && forall e :: e in es ==> !e.Popped?
    ensures Answered(PushAll(s, h, es).tally) == Answered(s.tally) + AnswersIn(es)
    ensures PushAll(s, h, es).tally[CPopped] == s.tally[CPopped]
    decreases |es|
  {
    if es != [] {
      BookedAnswers(s.tally, s.logs[h], es[0]);
      PushAllAnswers(Push(s, h, es[0]), h, es[1..]);
    }
  }

  lemma {:induction false} RefillBalances(s: State, budget: nat, surplus: nat)
    requires Valid(s) && BalancedBut(s, surplus)
    ensures BalancedBut(Refill(s, budget), surplus)
    decreases |s.queue|
  {
    if budget != 0 && s.queue != [] {
      var t := s.queue[|s.queue| - 1];
      BookedAnswers(s.tally, s.logs[t.hash], Popped);
      LiveAppend(s.live, Worker(t, Fresh), t.hash);
      RefillBalances(StartNext(s), budget - 1, surplus);
    }
  }

  lemma {:induction false} ReturnedBalances(s: State, i: nat, es: seq<Event>, ok: bool, surplus: nat, more: nat)
    requires Valid(s) && i < |s.live| && BalancedBut(s, surplus)
    requires Answers(s.live[i].stage, Returns(es, ok), more)
    ensures BalancedBut(Returned(s, i, es, ok), surplus + more)
  {
    var h := s.live[i].task.hash;
    PushAllAnswers(s, h, es);
    LiveWithout(s.live, i, h);
  }

  lemma {:induction false} ApplyBalances(s: State, i: nat, r: Reaction, pending: nat, surplus: nat, more: nat)
    requires Valid(s) && i < |s.live| && BalancedBut(s, surplus)
    requires Answers(s.live[i].stage, r, more)
    ensures BalancedBut(Apply(s, i, r, pending), surplus + more)
  {
    var h := s.live[i].task.hash;
    match r
    case Ignored =>
    case Continues(e, next) =>
      BookedAnswers(s.tally, s.logs[h], e);
      LiveUpdate(s.live, i, next, h);
    case Returns(es, ok) =>
      var s1 := Returned(s, i, es, ok);
      ReturnedBalances(s, i, es, ok, surplus, more);
      RefillBalances(Sampled(s1, pending), Budget(s1, pending), surplus + more);
  }

  ghost predicate BenignLabel(l: Label) {
    l.Work? ==> Benign(l.input)
  }

  ghost predicate AllBenign(ls: seq<Label>) {
    forall i :: 0 <= i < |ls| ==> BenignLabel(ls[i])
  }

  /** The second answers logged by one step, and by a whole run. */
  function StepSurplus(s: State, l: Label): nat {
    if s.phase.Running? && l.Work? && l.i < |s.live| then SecondAnswer(s.live[l.i], l.input) else 0
  }

  function Surplus(s: State, ls: seq<Label>): nat
    requires Valid(s)
    decreases |ls|
  {
    if ls == [] then 0 else StepSurplus(s, ls[0]) + Surplus(Step(s, ls[0]), ls[1..])
  }

  lemma {:induction false} StepBalances(s: State, l: Label, surplus: nat)
    requires Valid(s) && BalancedBut(s, surplus)
    ensures BalancedBut(Step(s, l), surplus + StepSurplus(s, l))
  {
    if !s.phase.Running? {
      assert Step(s, l) == s;
    } else if l.Tick? {
      RefillBalances(Sampled(s, l.pending), Budget(s, l.pending), surplus);
    } else if l.Work? && l.i < |s.live| {
      ReactAnswers(s.live[l.i], s.monitored, l.input);
      ApplyBalances(s, l.i, React(s.live[l.i], s.monitored, l.input), l.pending, surplus, StepSurplus(s, l));
    }
  }

  lemma {:induction false} ExecBalances(s: State, ls: seq<Label>, surplus: nat)
    requires Valid(s) && BalancedBut(s, surplus)
    ensures BalancedBut(Exec(s, ls), surplus + Surplus(s, ls))
    decreases |ls|
  {
    if ls != [] {
      StepBalances(s, ls[0], surplus);
      ExecBalances(Step(s, ls[0]), ls[1..], surplus + StepSurplus(s, ls[0]));
    }
  }

  lemma {:induction false} BenignHasNoSurplus(s: State, ls: seq<Label>)
    requires Valid(s) && AllBenign(ls)
    ensures Surplus(s, ls) == 0
    decreases |ls|
  {
    if ls != [] {
      assert BenignLabel(ls[0]);
      BenignHasNoSurplus(Step(s, ls[0]), ls[1..]);
    }
  }

  /** A worker that logs a second answer ends up among the errors. */
  lemma {:induction false} StepSurplusFails(s: State, l: Label)
    requires Valid(s)
    ensures |Step(s, l).errors| >= |s.errors| + StepSurplus(s, l)
  {
    if l.Tick? {
      RefillFrame(Sampled(s, l.pending), Budget(s, l.pending));
    } else if l.Work? && l.i < |s.live| {
      ApplyFails(s, l.i, React(s.live[l.i], s.monitored, l.input), l.pending);
    }
  }

  lemma {:induction false} ApplyFails(s: State, i: nat, r: Reaction, pending: nat)
    requires Valid(s) && i < |s.live|
    ensures |Apply(s, i, r, pending).errors| == |s.errors| + (if r.Returns? && !r.ok then 1 else 0)
  {
    if r.Returns? {
      var s1 := Returned(s, i, r.events, r.ok);
      RefillFrame(Sampled(s1, pending), Budget(s1, pending));
    }
  }

  lemma {:induction false} SurplusFails(s: State, ls: seq<Label>)
    requires Valid(s)
    ensures |Exec(s, ls).errors| >= |s.errors| + Surplus(s, ls)
    decreases |ls|
  {
    if ls != [] {
      StepSurplusFails(s, ls[0]);
      SurplusFails(Step(s, ls[0]), ls[1..]);
    }
  }

  lemma {:induction false} RunBalances(threshold: nat, monitored: bool, txs: seq<Task>, ls: seq<Label>)
    ensures BalancedBut(Run(threshold, monitored, txs, ls), Surplus(Begin(threshold, monitored, txs), ls))
  {
    RefillBalances(New(threshold, monitored, txs), threshold, 0);
    ExecBalances(Begin(threshold, monitored, txs), ls, 0);
  }

  lemma {:induction false} BalancedIsExact(s: State)
    requires Balanced(s) && |s.started| <= USIZE_MAX
    ensures Buffered(s.tally) == CountUnanswered(s.live)
  {
    var popped, watch := s.tally[CPopped], s.tally[CWatchSuccess] + s.tally[CWatchError];
    SmallSub(popped, watch);
    SmallSub(popped - watch, s.tally[CSubmitSuccess] + s.tally[CSubmitError]);
  }

  lemma {:induction false} SmallSub(a: nat, b: nat)
    requires b <= a <= USIZE_MAX
    ensures WrappingSub(a, b) == a - b
  {
  }

  /** The two wrapping subtractions are one. */
  lemma {:induction false} WrappingSubTwice(a: nat, b: nat, c: nat)
    ensures WrappingSub(WrappingSub(a, b), c) == WrappingSub(a, b + c)
  {
    var m := USIZE_MAX + 1;
    var q := (a - b) / m;
    assert WrappingSub(a, b) == a - b - q * m;
    ModShift(a - b - c - q * m, q, m);
  }

  lemma {:induction false} ModShift(x: int, q: int, m: nat)
    requires m > 0
    ensures (x + q * m) % m == x % m
  {
    var d := x / m;
    assert x + q * m == (d + q) * m + x % m;
    DivModUnique(x + q * m, m, d + q, x % m);
  }

  /**
   * In every reachable state in which the monitor has answered only `Ok` or mortal expiry, neither
   * subtraction behind `buffered` underflows and the result is the number of live workers whose
   * submission has not been answered.
   */
  lemma {:induction false} RunBufferedExact(threshold: nat, monitored: bool, txs: seq<Task>, ls: seq<Label>)
    requires |txs| <= USIZE_MAX && AllBenign(ls)
    ensures var s := Run(threshold, monitored, txs, ls);
            && s.tally[CWatchSuccess] + s.tally[CWatchError] <= s.tally[CPopped]
            && Answered(s.tally) <= s.tally[CPopped]
            && Buffered(s.tally) == CountUnanswered(s.live)
  {
    RunBalances(threshold, monitored, txs, ls);
    BenignHasNoSurplus(Begin(threshold, monitored, txs), ls);
    RunDispatchesInOrder(threshold, monitored, txs, ls);
    BalancedIsExact(Run(threshold, monitored, txs, ls));
  }

  /**
   * With any monitor: `buffered` is off, modulo the word size, by the number of workers that were
   * answered with another monitor error. So it is exact if and only if there was none.
   */
  lemma {:induction false} RunBufferedExactIff(threshold: nat, monitored: bool, txs: seq<Task>, ls: seq<Label>)
    requires |txs| <= USIZE_MAX
    ensures var s, surplus := Run(threshold, monitored, txs, ls), Surplus(Begin(threshold, monitored, txs), ls);
            && Buffered(s.tally) == WrappingSub(CountUnanswered(s.live), surplus)
            && (Buffered(s.tally) == CountUnanswered(s.live) <==> surplus == 0)
  {
    var s, surplus := Run(threshold, monitored, txs, ls), Surplus(Begin(threshold, monitored, txs), ls);
    RunBalances(threshold, monitored, txs, ls);
    RunCounts(threshold, monitored, txs, ls);
    SurplusFails(Begin(threshold, monitored, txs), ls);
    UnansweredAreLive(s.live);
    BufferedOff(s, surplus);
  }

  lemma {:induction false} BufferedOff(s: State, surplus: nat)
    requires BalancedBut(s, surplus) && CountUnanswered(s.live) + surplus <= USIZE_MAX
    ensures Buffered(s.tally) == WrappingSub(CountUnanswered(s.live), surplus)
    ensures Buffered(s.tally) == CountUnanswered(s.live) <==> surplus == 0
  {
    var popped, watch, plain :=
      s.tally[CPopped], s.tally[CWatchSuccess] + s.tally[CWatchError], s.tally[CSubmitSuccess] + s.tally[CSubmitError];
    WrappingSubTwice(popped, watch, plain);
    SameDifference(popped, watch + plain, CountUnanswered(s.live), surplus);
    OffBy(CountUnanswered(s.live), surplus);
  }

  lemma {:induction false} SameDifference(a: nat, b: nat, c: nat, d: nat)
    requires a + d == b + c
    ensures WrappingSub(a, b) == WrappingSub(c, d)
  {
    assert a as int - b == c as int - d;
  }

  lemma {:induction false} OffBy(n: nat, surplus: nat)
    requires n + surplus <= USIZE_MAX
    ensures WrappingSub(n, surplus) == n <==> surplus == 0
  {
    if surplus <= n {
      SmallSub(n, surplus);
    } else {
      ModShift(n - surplus, 1, USIZE_MAX + 1);
      assert WrappingSub(n, surplus) == n - surplus + 1 * (USIZE_MAX + 1);
    }
  }

  lemma {:induction false} UnansweredAreLive(live: seq<Worker>)
    ensures CountUnanswered(live) <= |live|
  {
    if live != [] {
      UnansweredAreLive(live[..|live| - 1]);
    }
  }

  /** No task is lost or made up, by number. */
  lemma {:induction false} RunCounts(threshold: nat, monitored: bool, txs: seq<Task>, ls: seq<Label>)
    ensures var s := Run(threshold, monitored, txs, ls);
            |s.queue| + |s.live| + |s.done| + |s.errors| == |txs|
  {
    var s := Run(threshold, monitored, txs, ls);
    RunConservesTasks(threshold, monitored, txs, ls);
    assert |multiset(Hashes(s.queue)) + multiset(LiveHashes(s.live)) + multiset(s.done) + multiset(s.errors)|
        == |multiset(Hashes(txs))|;
  }

  // ---- Starvation under an arbitrary sink ----

  /** A pending count that leaves an idle runner with `surplus` second answers no budget. */
  predicate Starves(threshold: nat, pending: nat, surplus: nat) {
    threshold <= pending || (surplus > 0 && threshold - pending + surplus <= USIZE_MAX + 1)
  }

  lemma {:induction false} IdleBuffered(s: State, surplus: nat)
    requires BalancedBut(s, surplus) && s.live == [] && surplus <= USIZE_MAX
    ensures Buffered(s.tally) == if surplus == 0 then 0 else USIZE_MAX + 1 - surplus
  {
    BufferedOff(s, surplus);
    if surplus > 0 {
      ModShift(0 - surplus, 1, USIZE_MAX + 1);
    }
  }

  /** A limited runner without workers starts nothing if and only if the pending count starves it. */
  lemma {:induction false} IdleStartsNothingIff(s: State, pending: nat, surplus: nat)
    requires Valid(s) && BalancedBut(s, surplus) && surplus <= USIZE_MAX
    requires s.live == [] && s.queue != [] && s.threshold < USIZE_MAX
    ensures ConsumePending(s, pending).live == [] <==> Starves(s.threshold, pending, surplus)
  {
    IdleBuffered(s, surplus);
    RefillFrame(Sampled(s, pending), Budget(s, pending));
  }

  /** A runner without workers but with queued tasks was given no budget by the count it sampled last. */
  ghost predicate StuckForAReason(s: State, surplus: nat) {
    s.live == [] && s.queue != [] ==>
      s.threshold == 0
      || (s.threshold < USIZE_MAX && s.sampled.Some? && Starves(s.threshold, s.sampled.value, surplus))
  }

  lemma {:induction false} ConsumeStuckForAReason(s: State, pending: nat, surplus: nat)
    requires Valid(s) && BalancedBut(s, surplus) && surplus <= USIZE_MAX && s.threshold <= USIZE_MAX
    ensures StuckForAReason(ConsumePending(s, pending), surplus)
  {
    RefillFrame(Sampled(s, pending), Budget(s, pending));
    var s' := ConsumePending(s, pending);
    if s'.live == [] && s'.queue != [] && s.threshold < USIZE_MAX {
      IdleStartsNothingIff(s, pending, surplus);
    }
  }

  lemma {:induction false} StepStuckForAReason(s: State, l: Label, surplus: nat)
    requires Valid(s) && BalancedBut(s, surplus) && surplus + StepSurplus(s, l) <= USIZE_MAX && s.threshold <= USIZE_MAX
    requires StuckForAReason(s, surplus)
    ensures StuckForAReason(Step(s, l), surplus + StepSurplus(s, l))
  {
    if !s.phase.Running? {
      assert Step(s, l) == s;
    } else if l.Tick? {
      ConsumeStuckForAReason(s, l.pending, surplus);
    } else if l.Work? && l.i < |s.live| {
      var r := React(s.live[l.i], s.monitored, l.input);
      ReactAnswers(s.live[l.i], s.monitored, l.input);
      ApplyStuckForAReason(s, l.i, r, l.pending, surplus, StepSurplus(s, l));
    }
  }

  lemma {:induction false} ApplyStuckForAReason(s: State, i: nat, r: Reaction, pending: nat, surplus: nat, more: nat)
    requires Valid(s) && i < |s.live| && BalancedBut(s, surplus) && surplus + more <= USIZE_MAX
    requires Answers(s.live[i].stage, r, more) && s.threshold <= USIZE_MAX
    ensures StuckForAReason(Apply(s, i, r, pending), surplus + more)
  {
    if r.Returns? {
      ReturnedBalances(s, i, r.events, r.ok, surplus, more);
      ConsumeStuckForAReason(Returned(s, i, r.events, r.ok), pending, surplus + more);
    }
  }

  lemma {:induction false} ExecStuckForAReason(s: State, ls: seq<Label>, surplus: nat)
    requires Valid(s) && BalancedBut(s, surplus) && surplus + Surplus(s, ls) <= USIZE_MAX && s.threshold <= USIZE_MAX
    requires StuckForAReason(s, surplus)
    ensures StuckForAReason(Exec(s, ls), surplus + Surplus(s, ls))
    decreases |ls|
  {
    if ls != [] {
      StepBalances(s, ls[0], surplus);
      StepStuckForAReason(s, ls[0], surplus);
      StepKeepsThreshold(s, ls[0]);
      ExecStuckForAReason(Step(s, ls[0]), ls[1..], surplus + StepSurplus(s, ls[0]));
    }
  }

  lemma {:induction false} RunSurplusBound(threshold: nat, monitored: bool, txs: seq<Task>, ls: seq<Label>)
    ensures Surplus(Begin(threshold, monitored, txs), ls) <= |txs|
  {
    SurplusFails(Begin(threshold, monitored, txs), ls);
    RunCounts(threshold, monitored, txs, ls);
  }

  /**
   * Whatever the sink and the monitor answer: if the run ends with "all futures done" while
   * transactions are still queued, the threshold was zero or the last pending count read left no
   * budget. Without foreign monitor errors that means a count of at least the threshold.
   */
  lemma {:induction false} RunStuckForAReason(threshold: nat, monitored: bool, txs: seq<Task>, ls: seq<Label>)
    requires threshold <= USIZE_MAX && |txs| <= USIZE_MAX
    ensures var s, surplus := Run(threshold, monitored, txs, ls), Surplus(Begin(threshold, monitored, txs), ls);
            s.phase == AllFuturesDone && s.queue != [] ==>
              threshold == 0 || (s.sampled.Some? && Starves(threshold, s.sampled.value, surplus))
    ensures var s := Run(threshold, monitored, txs, ls);
            AllBenign(ls) && s.phase == AllFuturesDone && s.queue != [] ==>
              threshold == 0 || (s.sampled.Some? && s.sampled.value >= threshold)
  {
    var s := New(threshold, monitored, txs);
    var s0 := Begin(threshold, monitored, txs);
    RefillBalances(s, threshold, 0);
    RefillFrame(s, threshold);
    RunSurplusBound(threshold, monitored, txs, ls);
    ExecStuckForAReason(s0, ls, 0);
    ExecEndsIdle(s0, ls);
    ExecKeepsThreshold(s0, ls);
    if AllBenign(ls) {
      BenignHasNoSurplus(s0, ls);
    }
  }

  /** In every reachable state of a limited runner that has run out of workers but not of tasks, the
      next tick starts nothing if and only if the count it reads starves the runner. */
  lemma {:induction false} RunStarvesIff(threshold: nat, monitored: bool, txs: seq<Task>, ls: seq<Label>, pending: nat)
    requires threshold < USIZE_MAX && |txs| <= USIZE_MAX
    ensures var s, surplus := Run(threshold, monitored, txs, ls), Surplus(Begin(threshold, monitored, txs), ls);
            s.phase.Running? && s.live == [] && s.queue != [] ==>
              (Step(s, Tick(pending)).live == [] <==> Starves(threshold, pending, surplus))
  {
    var s := Run(threshold, monitored, txs, ls);
    RunBalances(threshold, monitored, txs, ls);
    RunSurplusBound(threshold, monitored, txs, ls);
    RefillFrame(New(threshold, monitored, txs), threshold);
    ExecKeepsThreshold(Begin(threshold, monitored, txs), ls);
    if s.live == [] && s.queue != [] {
      IdleStartsNothingIff(s, pending, Surplus(Begin(threshold, monitored, txs), ls));
    }
  }

  /** A limited runner without workers that even an empty pool leaves no budget. */
  ghost predicate Starved(s: State, surplus: nat) {
    && Valid(s) && BalancedBut(s, surplus) && s.live == [] && surplus <= USIZE_MAX
    && s.threshold < USIZE_MAX && Starves(s.threshold, 0, surplus)
  }

  lemma {:induction false} StarvedStep(s: State, surplus: nat, l: Label)
    requires Starved(s, surplus)
    ensures Starved(Step(s, l), surplus) && Step(s, l).queue == s.queue && Step(s, l).started == s.started
  {
    if s.phase.Running? && l.Tick? {
      IdleBuffered(s, surplus);
      assert Budget(s, l.pending) == 0;
    }
  }

  /** From then on no task is started, whatever happens and whatever the pool reports. */
  lemma {:induction false} StarvedForGood(s: State, surplus: nat, ls: seq<Label>)
    requires Starved(s, surplus)
    ensures var s' := Exec(s, ls); s'.live == [] && s'.queue == s.queue && s'.started == s.started
    decreases |ls|
  {
    if ls != [] {
      StarvedStep(s, surplus, ls[0]);
      StarvedForGood(Step(s, ls[0]), surplus, ls[1..]);
    }
  }

  ghost predicate StartsNothingMore(s: State)
    requires Valid(s)
  {
    forall more :: Exec(s, more).started == s.started
  }

  /**
   * A reachable running state without workers but with queued tasks never starts one again if and
   * only if an empty pool would leave it no budget: the threshold is zero, or there was a foreign
   * monitor error and the threshold is not within their number of the largest word.
   */
  lemma {:induction false} RunStarvedForGoodIff(threshold: nat, monitored: bool, txs: seq<Task>, ls: seq<Label>)
    requires threshold < USIZE_MAX && |txs| <= USIZE_MAX
    ensures var s, surplus := Run(threshold, monitored, txs, ls), Surplus(Begin(threshold, monitored, txs), ls);
            s.phase.Running? && s.live == [] && s.queue != [] ==>
              (StartsNothingMore(s) <==> Starves(threshold, 0, surplus))
  {
    var s, surplus := Run(threshold, monitored, txs, ls), Surplus(Begin(threshold, monitored, txs), ls);
    RunBalances(threshold, monitored, txs, ls);
    RunSurplusBound(threshold, monitored, txs, ls);
    RefillFrame(New(threshold, monitored, txs), threshold);
    ExecKeepsThreshold(Begin(threshold, monitored, txs), ls);
    if s.phase.Running? && s.live == [] && s.queue != [] {
      IdleStarvedIff(s, surplus);
    }
  }

  lemma {:induction false} IdleStarvedIff(s: State, surplus: nat)
    requires Valid(s) && BalancedBut(s, surplus) && surplus <= USIZE_MAX && s.phase.Running?
    requires s.live == [] && s.queue != [] && s.threshold < USIZE_MAX
    ensures StartsNothingMore(s) <==> Starves(s.threshold, 0, surplus)
  {
    if Starves(s.threshold, 0, surplus) {
      forall more ensures Exec(s, more).started == s.started {
        StarvedForGood(s, surplus, more);
      }
    } else {
      var s' := ConsumePending(s, 0);
      IdleStartsNothingIff(s, 0, surplus);
      RefillStarts(Sampled(s, 0), Budget(s, 0));
      assert [Tick(0)][1..] == [];
      assert Exec(s, [Tick(0)]) == s';
    }
  }

  lemma {:induction false} RefillStarts(s: State, budget: nat)
    requires Valid(s)
    ensures |Refill(s, budget).started| - |s.started| == |Refill(s, budget).live| - |s.live|
    decreases |s.queue|
  {
    if budget != 0 && s.queue != [] {
      RefillStarts(StartNext(s), budget - 1);
    }
  }

  /** The select loop ends with "all futures done" only when there is no worker. */
  lemma {:induction false} ExecEndsIdle(s: State, ls: seq<Label>)
    requires Valid(s) && (s.phase == AllFuturesDone ==> s.live == [])
    ensures Exec(s, ls).phase == AllFuturesDone ==> Exec(s, ls).live == []
    decreases |ls|
  {
    if ls != [] {
      StepKeepsThreshold(s, ls[0]);
      ExecEndsIdle(Step(s, ls[0]), ls[1..]);
    }
  }

  lemma {:induction false} StepKeepsThreshold(s: State, l: Label)
    requires Valid(s)
    ensures Step(s, l).threshold == s.threshold && Step(s, l).monitored == s.monitored
    ensures (l.Tick? || l.Work?) ==> Step(s, l).phase == s.phase
  {
    if l.Tick? {
      RefillFrame(Sampled(s, l.pending), Budget(s, l.pending));
    } else if l.Work? && l.i < |s.live| {
      ApplyKeepsThreshold(s, l.i, React(s.live[l.i], s.monitored, l.input), l.pending);
    }
  }

  lemma {:induction false} ApplyKeepsThreshold(s: State, i: nat, r: Reaction, pending: nat)
    requires Valid(s) && i < |s.live|
    ensures var s' := Apply(s, i, r, pending);
            s'.threshold == s.threshold && s'.monitored == s.monitored && s'.phase == s.phase
  {
    if r.Returns? {
      var s1 := Returned(s, i, r.events, r.ok);
      RefillFrame(Sampled(s1, pending), Budget(s1, pending));
    }
  }

  lemma {:induction false} ExecKeepsThreshold(s: State, ls: seq<Label>)
    requires Valid(s)
    ensures Exec(s, ls).threshold == s.threshold && Exec(s, ls).monitored == s.monitored
    decreases |ls|
  {
    if ls != [] {
      StepKeepsThreshold(s, ls[0]);
      ExecKeepsThreshold(Step(s, ls[0]), ls[1..]);
    }
  }
}
