/**
 * The in-memory sink (src/fake_transaction_sink.rs) with its scripted transactions
 * (src/fake_transaction.rs), and the scheduler running against it.
 */
module FakeSink {
  import opened Wrappers
  import opened Transactions
  import opened TxTask
  import opened Scheduler
  import opened Budgeting

  // ---- Scripts ----

  function SubmitError(kind: string, message: string): Outcome<Error> {
    Fail(Other("submit-error:" + kind + ":" + message))
  }

  /** What submitting an unwatched fake transaction answers: its last scripted event decides.
      `None` is a panic, for an empty script or a last event that is not terminal. */
  function ScriptedResult(script: seq<TransactionStatus>): Option<Outcome<Error>> {
    if script == [] then None
    else
      match script[|script| - 1]
      case Finalized(_) => Some(Pass)
      case Dropped(m) => Some(SubmitError("dropped", m))
      case Invalid(m) => Some(SubmitError("invalid", m))
      case Errored(m) => Some(SubmitError("error", m))
      case _ => None
  }

  predicate NoTerminal(script: seq<TransactionStatus>) {
    forall i :: 0 <= i < |script| ==> !script[i].IsTerminal()
  }

  /** A watched task whose stream ends without a terminal status stays in the pool forever. */
  predicate Leaky(t: Task) {
    t.watched && NoTerminal(t.script)
  }

  /** An unwatched task whose submission panics. */
  predicate Broken(t: Task) {
    !t.watched && ScriptedResult(t.script).None?
  }

  // ---- The answers a worker gets from this sink, and what they do to the pool ----

  /** `None` is a panic. The sink has no monitor, so no worker ever waits for one. */
  function Answer(w: Worker): Option<Input> {
    match w.stage
    case Fresh => Some(FirstPoll)
    case Submitting =>
      if w.task.watched then Some(SubmitReply(Pass))
      else if ScriptedResult(w.task.script).None? then None
      else Some(SubmitReply(ScriptedResult(w.task.script).value))
    case Streaming(seen) =>
      Some(StreamItem(if seen < |w.task.script| then Some(w.task.script[seen]) else None))
    case Waiting => Some(FirstPoll)
  }

  /** The pool after worker `w` has been polled. */
  function PoolAfter(pool: set<Hash>, w: Worker): set<Hash> {
    match w.stage
    case Fresh => pool + {w.task.hash}
    case Submitting => if w.task.watched || Broken(w.task) then pool else pool - {w.task.hash}
    case Streaming(seen) =>
      if seen < |w.task.script| && w.task.script[seen].IsTerminal() then pool - {w.task.hash} else pool
    case Waiting => pool
  }

  /** The sink object: the set of transactions it is processing. */
  class FakeTransactionsSink {
    var txs: set<Hash>

    constructor ()
      ensures txs == {}
    {
      txs := {};
    }

    /** Accepts a watched transaction; its stream is played by `NextEvent`. */
    method SubmitAndWatch(task: Task)
      requires task.watched
      modifies this
      ensures txs == PoolAfter(old(txs), Worker(task, Fresh))
    {
      txs := txs + {task.hash};
    }

    /** The `seen`-th event of the stream; a terminal one takes the transaction out of the pool. */
    method NextEvent(task: Task, seen: nat) returns (item: Option<TransactionStatus>)
      modifies this
      ensures Answer(Worker(task, Streaming(seen))) == Some(StreamItem(item))
      ensures txs == PoolAfter(old(txs), Worker(task, Streaming(seen)))
    {
      if seen >= |task.script| {
        return None;
      }
      if task.script[seen].IsTerminal() {
        txs := txs - {task.hash};
      }
      item := Some(task.script[seen]);
    }

    /** The part of `submit` before its delay. */
    method BeginSubmit(task: Task)
      requires !task.watched
      modifies this
      ensures txs == PoolAfter(old(txs), Worker(task, Fresh))
    {
      txs := txs + {task.hash};
    }

    /** The part of `submit` after its delay; `None` when it panics. */
    method EndSubmit(task: Task) returns (result: Option<Outcome<Error>>)
      requires !task.watched
      modifies this
      ensures result.None? <==> Answer(Worker(task, Submitting)).None?
      ensures result.Some? ==> Answer(Worker(task, Submitting)) == Some(SubmitReply(result.value))
      ensures txs == PoolAfter(old(txs), Worker(task, Submitting))
    {
      result := ScriptedResult(task.script);
      if result.Some? {
        txs := txs - {task.hash};
      }
    }

    method PendingExtrinsics() returns (n: nat)
      ensures n == |txs|
    {
      n := |txs|;
    }
  }

  // ---- The scheduler on this sink ----

  datatype FakeState = FakeState(runner: State, pool: set<Hash>)

  datatype FakeLabel = Poll(i: nat) | Timer | StopRequest | Deadline | Idle

  /** The scheduler step a fake step is, with the sink's answers filled in. */
  function Concrete(fs: FakeState, l: FakeLabel): Label {
    match l
    case Poll(i) =>
      if i >= |fs.runner.live| then Work(i, FirstPoll, 0)
      else (
        var w := fs.runner.live[i];
        match Answer(w)
        case None => SinkPanics(i)
        case Some(input) => Work(i, input, |PoolAfter(fs.pool, w)|))
    case Timer => Tick(|fs.pool|)
    case StopRequest => Stop
    case Deadline => Timeout
    case Idle => NoWorkers
  }

  function FakeStep(fs: FakeState, l: FakeLabel): (fs': FakeState)
    requires Valid(fs.runner)
    ensures Valid(fs'.runner)
  {
    FakeState(
      Step(fs.runner, Concrete(fs, l)),
      if fs.runner.phase.Running? && l.Poll? && l.i < |fs.runner.live| then PoolAfter(fs.pool, fs.runner.live[l.i])
      else fs.pool)
  }

  function FakeExec(fs: FakeState, ls: seq<FakeLabel>): (fs': FakeState)
    requires Valid(fs.runner)
    ensures Valid(fs'.runner)
    decreases |ls|
  {
    if ls == [] then fs else FakeExec(FakeStep(fs, ls[0]), ls[1..])
  }

  function FakeBegin(threshold: nat, txs: seq<Task>): (fs: FakeState)
    ensures Valid(fs.runner)
  {
    FakeState(Begin(threshold, false, txs), {})
  }

  /** The state of a run against the fake sink after the select branches `ls`. */
  function FakeRun(threshold: nat, txs: seq<Task>, ls: seq<FakeLabel>): (fs: FakeState)
    ensures Valid(fs.runner)
  {
    FakeExec(FakeBegin(threshold, txs), ls)
  }

  function Concretes(fs: FakeState, ls: seq<FakeLabel>): seq<Label>
    requires Valid(fs.runner)
    decreases |ls|
  {
    if ls == [] then [] else [Concrete(fs, ls[0])] + Concretes(FakeStep(fs, ls[0]), ls[1..])
  }

  /** A run against the fake sink is one of the runs against an arbitrary sink, without monitor
      errors, so whatever holds of all of those holds of it. */
  lemma {:induction false} FakeRunsAreRuns(fs: FakeState, ls: seq<FakeLabel>)
    requires Valid(fs.runner)
    ensures FakeExec(fs, ls).runner == Exec(fs.runner, Concretes(fs, ls))
    ensures AllBenign(Concretes(fs, ls))
    decreases |ls|
  {
    if ls != [] {
      var rest := Concretes(FakeStep(fs, ls[0]), ls[1..]);
      FakeRunsAreRuns(FakeStep(fs, ls[0]), ls[1..]);
      assert ([Concrete(fs, ls[0])] + rest)[1..] == rest;
      ConcreteIsBenign(fs, ls[0]);
    }
  }

  /** Stop, timeout and the lack of workers end a fake run under their own names; a poll ends it only
      by the panic of a plain submission with a broken script. */
  lemma {:induction false} FakeEndings(fs: FakeState, l: FakeLabel)
    requires Valid(fs.runner) && fs.runner.phase.Running?
    ensures l.StopRequest? ==> FakeStep(fs, l).runner.phase == Stopped
    ensures l.Deadline? ==> FakeStep(fs, l).runner.phase == TimedOut
    ensures l.Idle? ==> FakeStep(fs, l).runner.phase == if fs.runner.live == [] then AllFuturesDone else Running
    ensures l.Poll? && l.i < |fs.runner.live| ==>
      var w := fs.runner.live[l.i];
      FakeStep(fs, l).runner.phase == if w.stage.Submitting? && Broken(w.task) then Panicked else Running
    ensures l.Timer? ==> FakeStep(fs, l).runner.phase.Running?
  {
    StepKeepsThreshold(fs.runner, Concrete(fs, l));
  }

  lemma {:induction false} ConcreteIsBenign(fs: FakeState, l: FakeLabel)
    ensures BenignLabel(Concrete(fs, l))
  {
  }
}
