/**
 * The throttle (consume_pending in src/runner.rs): exactly when a refill keeps the number of workers
 * in flight within the send threshold. Nothing is taken for granted about the sink, the monitor or
 * the hashes of the transactions.
 */
module Throttle {
  import opened Wrappers
  import opened Transactions
  import opened ExecutionLog
  import opened TxTask
  import opened Scheduler
  import opened Budgeting

  /** The pending count and `buffered` cover the workers in flight, or the queue is too short to matter. */
  predicate Covered(s: State, pending: nat) {
    |s.live| + |s.queue| <= s.threshold || |s.live| <= pending + Buffered(s.tally)
  }

  /** A refill keeps the bound if and only if the two counts it subtracts cover the workers. */
  lemma {:induction false} RefillBoundIff(s: State, pending: nat)
    requires Valid(s) && |s.live| <= s.threshold && |s.live| + |s.queue| <= USIZE_MAX
    ensures |ConsumePending(s, pending).live| <= s.threshold <==> Covered(s, pending)
  {
    RefillFrame(Sampled(s, pending), Budget(s, pending));
  }

  /** The state from which a branch refills and the pending count it samples, if it refills at all. */
  function RefillOf(s: State, l: Label): Option<(State, nat)>
    requires Valid(s)
  {
    if !s.phase.Running? then None
    else
      match l
      case Tick(pending) => Some((s, pending))
      case Work(i, input, pending) =>
        if i >= |s.live| then None
        else (
          match React(s.live[i], s.monitored, input)
          case Returns(es, ok) => Some((Returned(s, i, es, ok), pending))
          case _ => None
        )
      case _ => None
  }

  predicate StepCovered(s: State, l: Label)
    requires Valid(s)
  {
    RefillOf(s, l).Some? ==> Covered(RefillOf(s, l).value.0, RefillOf(s, l).value.1)
  }

  lemma {:induction false} StepBoundIff(s: State, l: Label)
    requires Valid(s) && |s.live| <= s.threshold && |s.live| + |s.queue| <= USIZE_MAX
    ensures |Step(s, l).live| <= s.threshold <==> StepCovered(s, l)
  {
    if RefillOf(s, l).Some? {
      RefillBoundIff(RefillOf(s, l).value.0, RefillOf(s, l).value.1);
    }
  }

  /** No step adds tasks to the ones queued or live. */
  lemma {:induction false} StepAddsNothing(s: State, l: Label)
    requires Valid(s)
    ensures |Step(s, l).live| + |Step(s, l).queue| <= |s.live| + |s.queue|
  {
    if RefillOf(s, l).Some? {
      var r := RefillOf(s, l).value;
      RefillFrame(Sampled(r.0, r.1), Budget(r.0, r.1));
    }
  }

  // ---- A refill starts as many tasks as it may ----

  /** Between `r` and the refilled `s`: if anything was left in the queue the counts reach the
      threshold, and if anything was started they do not exceed it. */
  predicate Filled(r: State, pending: nat, s: State) {
    var started := |s.live| - |r.live|;
    && 0 <= started
    && (s.queue != [] ==> pending + Buffered(r.tally) + started >= r.threshold)
    && (started > 0 ==> pending + Buffered(r.tally) + started <= r.threshold)
    && |s.live| + |s.queue| == |r.live| + |r.queue|
  }

  /** A refill fills the room that the pending count and `buffered` leave, whatever the monitor said;
      an unlimited one empties the queue. */
  lemma {:induction false} RefillFills(r: State, pending: nat)
    requires Valid(r) && r.threshold <= USIZE_MAX && |r.queue| <= USIZE_MAX
    ensures r.threshold < USIZE_MAX ==> Filled(r, pending, ConsumePending(r, pending))
    ensures r.threshold == USIZE_MAX ==> ConsumePending(r, pending).queue == []
  {
    RefillFrame(Sampled(r, pending), Budget(r, pending));
  }

  /** Counted by workers: after a refill the pending count and the unanswered workers reach the
      threshold if anything is left in the queue, and stay within it if anything was started. */
  lemma {:induction false} RefillFillsUnanswered(r: State, pending: nat)
    requires Valid(r) && Balanced(r) && r.threshold < USIZE_MAX && |r.started| + |r.queue| <= USIZE_MAX
    ensures var s := ConsumePending(r, pending);
            && (s.queue != [] ==> pending + CountUnanswered(s.live) >= r.threshold)
            && (s.live != r.live ==> pending + CountUnanswered(s.live) <= r.threshold)
  {
    var s := ConsumePending(r, pending);
    RefillFills(r, pending);
    BalancedIsExact(r);
    RefillUnanswered(Sampled(r, pending), Budget(r, pending));
    RefillAppends(Sampled(r, pending), Budget(r, pending));
  }

  lemma {:induction false} RefillUnanswered(s: State, budget: nat)
    requires Valid(s)
    ensures var s' := Refill(s, budget);
            CountUnanswered(s'.live) - CountUnanswered(s.live) == |s'.live| - |s.live|
    decreases |s.queue|
  {
    if budget != 0 && s.queue != [] {
      var w := Worker(s.queue[|s.queue| - 1], Fresh);
      LiveAppend(s.live, w, w.task.hash);
      RefillUnanswered(StartNext(s), budget - 1);
    }
  }

  /** Refilling puts new workers behind the ones there are. */
  lemma {:induction false} RefillAppends(s: State, budget: nat)
    requires Valid(s)
    ensures s.live <= Refill(s, budget).live && s.started <= Refill(s, budget).started
    decreases |s.queue|
  {
    if budget != 0 && s.queue != [] {
      RefillAppends(StartNext(s), budget - 1);
    }
  }

  /** Where a step refills, its outcome is the refilled state. */
  lemma {:induction false} StepRefills(s: State, l: Label)
    requires Valid(s) && RefillOf(s, l).Some?
    ensures Step(s, l) == ConsumePending(RefillOf(s, l).value.0, RefillOf(s, l).value.1)
  {
  }

  /** The initial fill starts as many tasks as the threshold allows. */
  lemma {:induction false} BeginFills(threshold: nat, monitored: bool, txs: seq<Task>)
    ensures var s := Begin(threshold, monitored, txs);
            && |s.live| == (if threshold <= |txs| then threshold else |txs|)
            && |s.live| + |s.queue| == |txs|
  {
    RefillFrame(New(threshold, monitored, txs), threshold);
  }

  /** The state in which a worker's result is recorded, and every ticking state, is refilled: these
      are the branches that refill, and there are no others. */
  lemma {:induction false} RefillingBranches(s: State, l: Label)
    requires Valid(s) && s.phase.Running?
    ensures l.Tick? ==> RefillOf(s, l) == Some((s, l.pending))
    ensures RefillOf(s, l).Some? && !l.Tick? <==>
            l.Work? && l.i < |s.live| && React(s.live[l.i], s.monitored, l.input).Returns?
    ensures RefillOf(s, l).None? ==> Step(s, l).queue == s.queue && |Step(s, l).live| == |s.live|
    ensures RefillOf(s, l).Some? && l.Work? ==>
            var r := RefillOf(s, l).value.0;
            && |r.live| == |s.live| - 1 && r.queue == s.queue && RefillOf(s, l).value.1 == l.pending
            && |r.done| + |r.errors| == |s.done| + |s.errors| + 1
  {
  }

  /**
   * Every refill of every run is full. With any sink and monitor, in terms of `buffered`; and when
   * the monitor answered only `Ok` or expiry, in terms of the workers after the refill.
   */
  lemma {:induction false} RunRefillsFill(threshold: nat, monitored: bool, txs: seq<Task>, ls: seq<Label>, l: Label)
    requires threshold <= USIZE_MAX && |txs| <= USIZE_MAX
    requires RefillOf(Run(threshold, monitored, txs, ls), l).Some?
    ensures var s := Run(threshold, monitored, txs, ls);
            var (r, pending) := RefillOf(s, l).value;
            var s' := Step(s, l);
            && (threshold == USIZE_MAX ==> s'.queue == [])
            && (threshold < USIZE_MAX ==> Filled(r, pending, s'))
            && (threshold < USIZE_MAX && AllBenign(ls + [l]) ==>
                  && (s'.queue != [] ==> pending + CountUnanswered(s'.live) >= threshold)
                  && (s'.live != r.live ==> pending + CountUnanswered(s'.live) <= threshold))
  {
    var s := Run(threshold, monitored, txs, ls);
    var (r, pending) := RefillOf(s, l).value;
    RunDispatchesInOrder(threshold, monitored, txs, ls);
    RunKeepsThreshold(threshold, monitored, txs, ls);
    RefillFrameOf(s, l);
    StepRefills(s, l);
    RefillFills(r, pending);
    if threshold < USIZE_MAX && AllBenign(ls + [l]) {
      BenignPrefix(ls, l);
      RunBalances(threshold, monitored, txs, ls);
      BenignHasNoSurplus(Begin(threshold, monitored, txs), ls);
      RefillBalanced(s, l);
      RefillFillsUnanswered(r, pending);
    }
  }

  lemma {:induction false} BenignPrefix(ls: seq<Label>, l: Label)
    requires AllBenign(ls + [l])
    ensures AllBenign(ls) && BenignLabel(l)
  {
    forall i | 0 <= i < |ls| ensures BenignLabel(ls[i]) {
      assert (ls + [l])[i] == ls[i];
    }
    assert (ls + [l])[|ls|] == l;
  }

  lemma {:induction false} RunKeepsThreshold(threshold: nat, monitored: bool, txs: seq<Task>, ls: seq<Label>)
    ensures Run(threshold, monitored, txs, ls).threshold == threshold
  {
    RefillFrame(New(threshold, monitored, txs), threshold);
    ExecKeepsThreshold(Begin(threshold, monitored, txs), ls);
  }

  /** The state a branch refills from has the queue and the history of the state before. */
  lemma {:induction false} RefillFrameOf(s: State, l: Label)
    requires Valid(s) && RefillOf(s, l).Some?
    ensures var r := RefillOf(s, l).value.0;
            r.queue == s.queue && r.started == s.started && r.threshold == s.threshold
  {
  }

  lemma {:induction false} RefillBalanced(s: State, l: Label)
    requires Valid(s) && Balanced(s) && BenignLabel(l) && RefillOf(s, l).Some?
    ensures Balanced(RefillOf(s, l).value.0)
  {
    if l.Work? {
      var r := React(s.live[l.i], s.monitored, l.input);
      ReactAnswers(s.live[l.i], s.monitored, l.input);
      ReturnedBalances(s, l.i, r.events, r.ok, 0, 0);
    }
  }

  // ---- Over whole runs ----

  lemma {:induction false} ExecSnoc(s: State, ls: seq<Label>, n: nat)
    requires Valid(s) && n < |ls|
    ensures Exec(s, ls[..n + 1]) == Step(Exec(s, ls[..n]), ls[n])
    decreases n
  {
    assert ls[..n + 1][1..] == ls[1..][..n];
    if n > 0 {
      assert ls[..n][1..] == ls[1..][..n - 1];
      ExecSnoc(Step(s, ls[0]), ls[1..], n - 1);
    }
  }

  /** At every point of the run the workers in flight are within the threshold. */
  ghost predicate BoundedThroughout(s: State, ls: seq<Label>)
    requires Valid(s)
  {
    forall n :: 0 <= n <= |ls| ==> |Exec(s, ls[..n]).live| <= s.threshold
  }

  /** At every refill of the run the counts cover the workers in flight. */
  ghost predicate CoveredThroughout(s: State, ls: seq<Label>)
    requires Valid(s)
  {
    forall n :: 0 <= n < |ls| ==> StepCovered(Exec(s, ls[..n]), ls[n])
  }

  lemma {:induction false} PrefixKeeps(s: State, ls: seq<Label>, n: nat)
    requires Valid(s) && n <= |ls| && |s.live| + |s.queue| <= USIZE_MAX
    ensures var s' := Exec(s, ls[..n]); |s'.live| + |s'.queue| <= USIZE_MAX && s'.threshold == s.threshold
  {
    if n > 0 {
      PrefixKeeps(s, ls, n - 1);
      ExecSnoc(s, ls, n - 1);
      StepAddsNothing(Exec(s, ls[..n - 1]), ls[n - 1]);
      StepKeepsThreshold(Exec(s, ls[..n - 1]), ls[n - 1]);
    }
  }

  lemma {:induction false} CoveredPrefixBounded(s: State, ls: seq<Label>, n: nat)
    requires Valid(s) && n <= |ls| && |s.live| <= s.threshold && |s.live| + |s.queue| <= USIZE_MAX
    requires CoveredThroughout(s, ls)
    ensures |Exec(s, ls[..n]).live| <= s.threshold
  {
    if n > 0 {
      CoveredPrefixBounded(s, ls, n - 1);
      PrefixKeeps(s, ls, n - 1);
      ExecSnoc(s, ls, n - 1);
      StepBoundIff(Exec(s, ls[..n - 1]), ls[n - 1]);
    }
  }

  lemma {:induction false} ExecBoundIff(s: State, ls: seq<Label>)
    requires Valid(s) && |s.live| <= s.threshold && |s.live| + |s.queue| <= USIZE_MAX
    ensures BoundedThroughout(s, ls) <==> CoveredThroughout(s, ls)
  {
    if BoundedThroughout(s, ls) {
      forall n | 0 <= n < |ls| ensures StepCovered(Exec(s, ls[..n]), ls[n]) {
        PrefixKeeps(s, ls, n);
        ExecSnoc(s, ls, n);
        assert |Exec(s, ls[..n + 1]).live| <= s.threshold;
        StepBoundIff(Exec(s, ls[..n]), ls[n]);
      }
    }
    if CoveredThroughout(s, ls) {
      forall n | 0 <= n <= |ls| ensures |Exec(s, ls[..n]).live| <= s.threshold {
        CoveredPrefixBounded(s, ls, n);
      }
    }
  }

  /**
   * For any batch, any sink and any monitor: the workers in flight are within the threshold at every
   * point of a run if and only if, at every refill, the pending count and `buffered` cover the
   * workers, or the queue is too short to matter.
   */
  lemma {:induction false} RunBoundedIff(threshold: nat, monitored: bool, txs: seq<Task>, ls: seq<Label>)
    requires |txs| <= USIZE_MAX
    ensures BoundedThroughout(Begin(threshold, monitored, txs), ls)
            <==> CoveredThroughout(Begin(threshold, monitored, txs), ls)
  {
    RefillFrame(New(threshold, monitored, txs), threshold);
    ExecBoundIff(Begin(threshold, monitored, txs), ls);
  }

  // ---- With monitor answers `Ok` or expiry, `buffered` is the number of unanswered workers ----

  /** Workers that are answered and not in the pool fit under those that are both. */
  predicate Counted(s: State, pending: nat) {
    |s.live| + |s.queue| <= s.threshold || |s.live| <= pending + CountUnanswered(s.live)
  }

  predicate StepCounted(s: State, l: Label)
    requires Valid(s)
  {
    RefillOf(s, l).Some? ==> Counted(RefillOf(s, l).value.0, RefillOf(s, l).value.1)
  }

  ghost predicate CountedThroughout(s: State, ls: seq<Label>)
    requires Valid(s)
  {
    forall n :: 0 <= n < |ls| ==> StepCounted(Exec(s, ls[..n]), ls[n])
  }

  lemma {:induction false} StepCountedIffCovered(s: State, l: Label)
    requires Valid(s) && Balanced(s) && |s.started| <= USIZE_MAX && BenignLabel(l)
    ensures StepCounted(s, l) <==> StepCovered(s, l)
  {
    if RefillOf(s, l).Some? {
      RefillBalanced(s, l);
      RefillFrameOf(s, l);
      BalancedIsExact(RefillOf(s, l).value.0);
    }
  }

  /** The same for such runs, in terms of the workers alone. */
  lemma {:induction false} BenignRunBoundedIff(threshold: nat, monitored: bool, txs: seq<Task>, ls: seq<Label>)
    requires |txs| <= USIZE_MAX && AllBenign(ls)
    ensures BoundedThroughout(Begin(threshold, monitored, txs), ls)
            <==> CountedThroughout(Begin(threshold, monitored, txs), ls)
  {
    RunBoundedIff(threshold, monitored, txs, ls);
    forall n | 0 <= n < |ls|
      ensures var s := Exec(Begin(threshold, monitored, txs), ls[..n]);
              StepCounted(s, ls[n]) <==> StepCovered(s, ls[n])
    {
      RunBalances(threshold, monitored, txs, ls[..n]);
      BenignHasNoSurplus(Begin(threshold, monitored, txs), ls[..n]);
      RunDispatchesInOrder(threshold, monitored, txs, ls[..n]);
      assert BenignLabel(ls[n]);
      StepCountedIffCovered(Exec(Begin(threshold, monitored, txs), ls[..n]), ls[n]);
    }
  }
}
