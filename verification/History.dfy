/** What a run has recorded stays recorded, and it ends by the first branch that ends it. */
module History {
  import opened TxTask
  import opened Scheduler

  /** `s'` comes after `s`: logs, results and started tasks have only been added to, at their ends. */
  ghost predicate Follows(s: State, s': State) {
    && s.done <= s'.done && s.errors <= s'.errors && s.started <= s'.started
    && s.logs.Keys == s'.logs.Keys
    && forall h :: h in s.logs ==> s.logs[h] <= s'.logs[h]
  }

  lemma {:induction false} RefillFollows(s: State, budget: nat)
    requires Valid(s)
    ensures Follows(s, Refill(s, budget))
    decreases |s.queue|
  {
    if budget != 0 && s.queue != [] {
      RefillFollows(StartNext(s), budget - 1);
    }
  }

  lemma {:induction false} ConsumeFollows(s: State, pending: nat)
    requires Valid(s)
    ensures Follows(s, ConsumePending(s, pending))
  {
    RefillFollows(Sampled(s, pending), Budget(s, pending));
  }

  lemma {:induction false} ApplyFollows(s: State, i: nat, r: Reaction, pending: nat)
    requires Valid(s) && i < |s.live|
    ensures Follows(s, Apply(s, i, r, pending))
  {
    if r.Returns? {
      ConsumeFollows(Returned(s, i, r.events, r.ok), pending);
    }
  }

  lemma {:induction false} StepFollows(s: State, l: Label)
    requires Valid(s)
    ensures Follows(s, Step(s, l))
  {
    if l.Tick? {
      ConsumeFollows(s, l.pending);
    } else if l.Work? && l.i < |s.live| {
      ApplyFollows(s, l.i, React(s.live[l.i], s.monitored, l.input), l.pending);
    }
  }

  /** Along a run, logs, results and started tasks only ever grow at their ends. */
  lemma {:induction false} ExecFollows(s: State, ls: seq<Label>)
    requires Valid(s)
    ensures Follows(s, Exec(s, ls))
    decreases |ls|
  {
    if ls != [] {
      StepFollows(s, ls[0]);
      ExecFollows(Step(s, ls[0]), ls[1..]);
    }
  }

  // ---- How a run ends ----

  /** What each branch that ends a run leaves as the reason. */
  ghost predicate EndsAs(s: State, l: Label, phase: Phase) {
    match phase
    case Running => false
    case Stopped => l.Stop?
    case TimedOut => l.Timeout?
    case AllFuturesDone => l.NoWorkers? && s.live == []
    case Panicked => l.SinkPanics? && l.i < |s.live|
  }

  /** A running state ends exactly by a stop, a timeout, a panic or the lack of workers. */
  lemma {:induction false} StepEndsIff(s: State, l: Label)
    requires Valid(s) && s.phase.Running?
    ensures Step(s, l).phase.Running? <==>
            !l.Stop? && !l.Timeout? && !(l.NoWorkers? && s.live == []) && !(l.SinkPanics? && l.i < |s.live|)
    ensures !Step(s, l).phase.Running? ==>
            EndsAs(s, l, Step(s, l).phase) && Step(s, l) == s.(phase := Step(s, l).phase)
  {
    if l.Tick? {
      RefillFrame(Sampled(s, l.pending), Budget(s, l.pending));
    } else if l.Work? && l.i < |s.live| {
      var r := React(s.live[l.i], s.monitored, l.input);
      if r.Returns? {
        var s1 := Returned(s, l.i, r.events, r.ok);
        RefillFrame(Sampled(s1, l.pending), Budget(s1, l.pending));
      }
    }
  }

  lemma {:induction false} EndedStays(s: State, ls: seq<Label>)
    requires Valid(s) && !s.phase.Running?
    ensures Exec(s, ls) == s
    decreases |ls|
  {
    if ls != [] {
      EndedStays(s, ls[1..]);
    }
  }

  /** A run that has ended did so by its first ending branch, whose reason stands, and from then on
      nothing changed. */
  lemma {:induction false} RunEnds(s: State, ls: seq<Label>) returns (n: nat)
    requires Valid(s) && s.phase.Running? && !Exec(s, ls).phase.Running?
    ensures n < |ls| && Exec(s, ls[..n]).phase.Running?
    ensures EndsAs(Exec(s, ls[..n]), ls[n], Exec(s, ls).phase)
    ensures Exec(s, ls) == Exec(s, ls[..n]).(phase := Exec(s, ls).phase)
    decreases |ls|
  {
    StepEndsIff(s, ls[0]);
    if Step(s, ls[0]).phase.Running? {
      var k := RunEnds(Step(s, ls[0]), ls[1..]);
      n := k + 1;
      assert ls[..n][1..] == ls[1..][..k];
    } else {
      n := 0;
      EndedStays(Step(s, ls[0]), ls[1..]);
    }
  }
}
