/**
 * The scheduler's part of a run of the composed system is a run of the scheduler in which the monitor
 * answers only `Ok` or mortal expiry. So what holds of such runs holds of the composed system, with
 * nothing assumed about its monitor.
 */
module SystemBranches {
  import opened Transactions
  import opened ExecutionLog
  import opened TxTask
  import opened Scheduler
  import opened Budgeting
  import opened BlockMonitor
  import opened MonitoredRuns

  /** The select branch a step of the system is to the scheduler, if it is one. */
  ghost function BranchOf(y: System, l: SystemLabel): seq<Label> {
    match l
    case Sink(branch) => if branch.Work? && branch.input.MonitorReply? then [] else [branch]
    case Deliver(i, reply, pending) =>
      if i < |y.runner.live| && Yields(y.monitor, Channel(y.runner.live[i].task), reply)
      then [Work(i, MonitorReply(reply), pending)]
      else []
    case Receive => []
    case Chain(block, finalized) => []
  }

  ghost function Branches(y: System, ls: seq<SystemLabel>): seq<Label>
    requires Valid(y.runner)
    decreases |ls|
  {
    if ls == [] then [] else BranchOf(y, ls[0]) + Branches(SystemStep(y, ls[0]), ls[1..])
  }

  lemma {:induction false} BranchIsBenign(txs: seq<Task>, y: System, l: SystemLabel)
    requires SystemSound(txs, y) && Distinct(Hashes(txs))
    ensures SystemStep(y, l).runner == Exec(y.runner, BranchOf(y, l)) && AllBenign(BranchOf(y, l))
  {
    var bs := BranchOf(y, l);
    if bs != [] {
      assert bs[1..] == [];
    }
    if l.Deliver? && bs != [] {
      assert y.runner.live[l.i].task in txs;
      RepliesAreBenign(txs, y, y.runner.live[l.i].task, l.reply);
    }
  }

  lemma {:induction false} SystemExecIsRun(txs: seq<Task>, y: System, ls: seq<SystemLabel>)
    requires SystemSound(txs, y) && Distinct(Hashes(txs))
    ensures SystemExec(y, ls).runner == Exec(y.runner, Branches(y, ls)) && AllBenign(Branches(y, ls))
    decreases |ls|
  {
    if ls != [] {
      var y' := SystemStep(y, ls[0]);
      BranchIsBenign(txs, y, ls[0]);
      SystemStepSound(txs, y, ls[0]);
      SystemExecIsRun(txs, y', ls[1..]);
      ExecAppend(y.runner, BranchOf(y, ls[0]), Branches(y', ls[1..]));
    }
  }

  lemma {:induction false} ExecAppend(s: State, first: seq<Label>, rest: seq<Label>)
    requires Valid(s)
    ensures Exec(s, first + rest) == Exec(Exec(s, first), rest)
    decreases |first|
  {
    if first == [] {
      assert first + rest == rest;
    } else {
      assert (first + rest)[1..] == first[1..] + rest;
      ExecAppend(Step(s, first[0]), first[1..], rest);
    }
  }

  /** Every run of the composed system over distinct hashes is, to the scheduler, a run with benign
      monitor answers. */
  lemma {:induction false} SystemRunsAreRuns(threshold: nat, txs: seq<Task>, ls: seq<SystemLabel>)
    requires Distinct(Hashes(txs))
    ensures var branches := Branches(System(Begin(threshold, true, txs), IDLE, [], []), ls);
            SystemRun(threshold, txs, ls).runner == Run(threshold, true, txs, branches) && AllBenign(branches)
  {
    var y := System(Begin(threshold, true, txs), IDLE, [], []);
    BeginSound(threshold, txs);
    BeginCaused(threshold, txs, y);
    SystemExecIsRun(txs, y, ls);
  }

  /** In the composed system, a run that ends with tasks still queued had threshold zero or last read
      a pending count of at least the threshold. */
  lemma {:induction false} SystemRunStuckForAReason(threshold: nat, txs: seq<Task>, ls: seq<SystemLabel>)
    requires Distinct(Hashes(txs)) && threshold <= USIZE_MAX && |txs| <= USIZE_MAX
    ensures var s := SystemRun(threshold, txs, ls).runner;
            s.phase == AllFuturesDone && s.queue != [] ==>
              threshold == 0 || (s.sampled.Some? && s.sampled.value >= threshold)
  {
    SystemRunsAreRuns(threshold, txs, ls);
    RunStuckForAReason(threshold, true, txs, Branches(System(Begin(threshold, true, txs), IDLE, [], []), ls));
  }

  /** And an idle limited runner with tasks queued starts one at the next tick if and only if the pool
      has fallen below the threshold. */
  lemma {:induction false} SystemRunResumesIff(threshold: nat, txs: seq<Task>, ls: seq<SystemLabel>, pending: nat)
    requires Distinct(Hashes(txs)) && threshold < USIZE_MAX && |txs| <= USIZE_MAX
    ensures var s := SystemRun(threshold, txs, ls).runner;
            s.phase.Running? && s.live == [] && s.queue != [] ==>
              (Step(s, Tick(pending)).live != [] <==> pending < threshold)
  {
    var branches := Branches(System(Begin(threshold, true, txs), IDLE, [], []), ls);
    SystemRunsAreRuns(threshold, txs, ls);
    BenignHasNoSurplus(Begin(threshold, true, txs), branches);
    RunStarvesIff(threshold, true, txs, branches, pending);
  }
}
