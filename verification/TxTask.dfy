/**
 * The future that executes one task (DefaultTxTask in src/runner.rs). A future that awaits is a
 * state machine, so it is modelled by its stages and by what each answer it awaits makes it do.
 */
module TxTask {
  import opened Wrappers
  import opened Transactions
  import opened ExecutionLog

  /** The await a task is suspended at. `seen` counts the statuses its stream has delivered. */
  datatype Stage = Fresh | Submitting | Streaming(seen: nat) | Waiting

  datatype Worker = Worker(task: Task, stage: Stage)

  /** What an awaited call may answer; `FirstPoll` is the poll that starts the future. */
  datatype Input =
    | FirstPoll
    | SubmitReply(result: Outcome<Error>)
    | StreamItem(item: Option<TransactionStatus>)
    | MonitorReply(reply: Result<Hash, Error>)

  /** `Ignored`: the answer is not the one the future waits for. */
  datatype Reaction =
    | Ignored
    | Continues(event: Event, next: Stage)
    | Returns(events: seq<Event>, ok: bool)

  function React(w: Worker, monitored: bool, input: Input): Reaction {
    match (w.stage, input)
    case (Fresh, FirstPoll) => Continues(Sent, Submitting)
    case (Submitting, SubmitReply(r)) =>
      if w.task.watched then
        if r.Pass? then Continues(SubmitAndWatchResult(r), Streaming(0))
        else Returns([SubmitAndWatchResult(r)], false)
      else if r.Fail? then Returns([SubmitResult(r)], false)
      else if monitored then Continues(SubmitResult(r), Waiting)
      else Returns([SubmitResult(r)], true)
    case (Streaming(_), StreamItem(None)) => Returns([], false)
    case (Streaming(seen), StreamItem(Some(status))) =>
      if status.IsFinalized() then Returns([TxPoolEvent(status)], true)
      else if status.IsError() then Returns([TxPoolEvent(status)], false)
      else Continues(TxPoolEvent(status), Streaming(seen + 1))
    case (Waiting, MonitorReply(Success(block))) => Returns([FinalizedMonitor(block)], true)
    case (Waiting, MonitorReply(Failure(MortalLifetimeSurpassed(n)))) =>
      Returns([MortalDroppedMonitor(n)], false)
    case (Waiting, MonitorReply(Failure(Other(m)))) =>
      Returns([SubmitResult(Fail(Other(m)))], false)
    case _ => Ignored
  }

  /** The answer a future waits for at its await. */
  predicate Awaits(stage: Stage, input: Input) {
    match stage
    case Fresh => input.FirstPoll?
    case Submitting => input.SubmitReply?
    case Streaming(_) => input.StreamItem?
    case Waiting => input.MonitorReply?
  }

  /** A future takes in exactly the answers it waits for, and goes on to the await that follows. */
  lemma {:induction false} ReactMoves(w: Worker, monitored: bool, input: Input)
    ensures var r := React(w, monitored, input);
            && (r.Ignored? <==> !Awaits(w.stage, input))
            && (r.Continues? && w.stage.Fresh? ==> r.next == Submitting)
            && (r.Continues? && w.stage.Submitting? ==> r.next == if w.task.watched then Streaming(0) else Waiting)
            && (r.Continues? && w.stage.Streaming? ==> r.next == Streaming(w.stage.seen + 1))
            && (w.stage.Waiting? ==> !r.Continues?)
  {
  }

  /** Every monitor answer except the catch-all error. */
  predicate Benign(input: Input) {
    !(input.MonitorReply? && input.reply.Failure? && input.reply.error.Other?)
  }

  // ---- The grammar of the logs ----

  predicate IsAnswer(e: Event) {
    e.SubmitResult? || e.SubmitAndWatchResult?
  }

  predicate Unanswered(stage: Stage) {
    stage.Fresh? || stage.Submitting?
  }

  /** Pool events from index 3 on; all but possibly the last of them are not terminal. */
  ghost predicate StatusTail(log: seq<Event>) {
    && (forall i :: 3 <= i < |log| ==> log[i].TxPoolEvent?)
    && (forall i :: 3 <= i < |log| - 1 ==> !log[i].status.IsTerminal())
  }

  /** The log of a task that is still executing. */
  ghost predicate LiveLog(task: Task, stage: Stage, log: seq<Event>) {
    match stage
    case Fresh => log == [Popped]
    case Submitting => log == [Popped, Sent]
    case Streaming(seen) =>
      && task.watched
      && |log| == 3 + seen
      && log[..3] == [Popped, Sent, SubmitAndWatchResult(Pass)]
      && StatusTail(log)
      && (seen > 0 ==> !log[|log| - 1].status.IsTerminal())
    case Waiting => !task.watched && log == [Popped, Sent, SubmitResult(Pass)]
  }

  /** The complete log of a task that returned `Done` (`ok`) or `Error`. */
  ghost predicate FinishedLog(task: Task, log: seq<Event>, ok: bool) {
    if task.watched then
      && |log| >= 3
      && log[0] == Popped && log[1] == Sent && log[2].SubmitAndWatchResult?
      && (log[2].result.Fail? ==> |log| == 3)
      && StatusTail(log)
      && (ok <==> |log| > 3 && log[|log| - 1].status.IsFinalized())
    else
      && |log| >= 3
      && log[0] == Popped && log[1] == Sent && log[2].SubmitResult?
      && match |log|
         case 3 => ok <==> log[2].result.Pass?
         case 4 => log[2].result.Pass? && (if ok then log[3].FinalizedMonitor? else log[3].MortalDroppedMonitor?)
         case _ => false
  }

  /** Whatever is answered, a task's log stays a word of the grammar. */
  lemma {:induction false} ReactKeepsGrammar(w: Worker, monitored: bool, input: Input, log: seq<Event>)
    requires LiveLog(w.task, w.stage, log) && Benign(input)
    ensures match React(w, monitored, input)
            case Ignored => true
            case Continues(e, next) => LiveLog(w.task, next, log + [e])
            case Returns(es, ok) => FinishedLog(w.task, log + es, ok)
  {
    if w.stage.Streaming? {
      assert log[0] == log[..3][0] && log[1] == log[..3][1] && log[2] == log[..3][2];
      match React(w, monitored, input)
      case Ignored =>
      case Continues(e, next) =>
        assert (log + [e])[..3] == log[..3];
      case Returns(es, ok) =>
        assert log + [] == log;
    }
  }

  /** A finished log holds exactly one submit outcome, and it is the third event. */
  lemma {:induction false} FinishedLogHasOneAnswer(task: Task, log: seq<Event>, ok: bool)
    requires FinishedLog(task, log, ok)
    ensures forall i :: 0 <= i < |log| ==> (IsAnswer(log[i]) <==> i == 2)
  {
  }

  lemma {:induction false} PoolTailLetters(log: seq<Event>)
    requires forall i :: 0 <= i < |log| ==> log[i].TxPoolEvent?
    ensures |InpoolEventsString(log)| == |log|
    ensures forall i :: 0 <= i < |log| ==> InpoolEventsString(log)[i] == log[i].status.GetLetter()
  {
    if log != [] {
      PoolTailLetters(log[1..]);
    }
  }

  lemma {:induction false} HeadHasNoLetters(log: seq<Event>)
    requires |log| >= 3 && !log[0].TxPoolEvent? && !log[1].TxPoolEvent? && !log[2].TxPoolEvent?
    ensures InpoolEventsString(log) == InpoolEventsString(log[3..])
  {
    assert log[1..][1..] == log[2..] && log[2..][1..] == log[3..];
    assert InpoolEventsString(log[1..]) == InpoolEventsString(log[2..]);
    assert InpoolEventsString(log[2..]) == InpoolEventsString(log[3..]);
  }

  /** A watched task's in-pool string has a terminal letter at most in its last position, and the
      task is `Done` exactly when that letter is `F`. */
  lemma {:induction false} WatchedInpoolString(task: Task, log: seq<Event>, ok: bool)
    requires task.watched && FinishedLog(task, log, ok)
    ensures var letters := InpoolEventsString(log);
            && (forall i :: 0 <= i < |letters| - 1 ==> letters[i] !in TERMINAL_LETTERS)
            && (ok <==> letters != "" && letters[|letters| - 1] == 'F')
  {
    var tail := log[3..];
    HeadHasNoLetters(log);
    PoolTailLetters(tail);
    forall i | 0 <= i < |tail| - 1 ensures InpoolEventsString(tail)[i] !in TERMINAL_LETTERS {
      assert tail[i] == log[i + 3];
      TerminalStatuses(tail[i].status);
    }
    if tail != [] {
      var last := |tail| - 1;
      assert tail[last] == log[|log| - 1];
      assert tail[last].status.IsFinalized() <==> tail[last].status.GetLetter() == 'F';
    }
  }

  // ---- One task on its own ----

  /** The log and the result of a future fed with `inputs`, `None` while it has not returned. */
  function Drive(w: Worker, monitored: bool, log: seq<Event>, inputs: seq<Input>): (seq<Event>, Option<bool>)
    decreases |inputs|
  {
    if inputs == [] then (log, None)
    else
      match React(w, monitored, inputs[0])
      case Ignored => Drive(w, monitored, log, inputs[1..])
      case Continues(e, next) => Drive(Worker(w.task, next), monitored, log + [e], inputs[1..])
      case Returns(es, ok) => (log + es, Some(ok))
  }

  /** The tally after a log has grown from `before` to `after` with nobody else pushing. */
  function Replay(tally: Tally, before: seq<Event>, after: seq<Event>): Tally
    requires before <= after
  {
    if |after| == |before| then tally
    else
      var n := |after| - 1;
      Booked(Replay(tally, before, after[..n]), after[..n], after[n])
  }

  lemma {:induction false} ReplayPush(tally: Tally, before: seq<Event>, log: seq<Event>, e: Event)
    requires before <= log
    ensures Replay(tally, before, log + [e]) == Booked(Replay(tally, before, log), log, e)
  {
    assert (log + [e])[..|log|] == log;
  }

  function Items(stream: seq<TransactionStatus>): (inputs: seq<Input>)
    ensures |inputs| == |stream| + 1
    ensures forall i :: 0 <= i < |stream| ==> inputs[i] == StreamItem(Some(stream[i]))
    ensures inputs[|stream|] == StreamItem(None)
  {
    seq(|stream|, i requires 0 <= i < |stream| => StreamItem(Some(stream[i]))) + [StreamItem(None)]
  }

  lemma {:induction false} ItemsTail(stream: seq<TransactionStatus>)
    requires stream != []
    ensures Items(stream)[1..] == Items(stream[1..])
  {
  }

  /** A watched future that is started and told how its submission went. */
  lemma {:induction false} DriveSubmission(task: Task, monitored: bool, log: seq<Event>, r: Outcome<Error>,
                                           rest: seq<Input>)
    requires task.watched
    ensures var log' := log + [Sent] + [SubmitAndWatchResult(r)];
            Drive(Worker(task, Fresh), monitored, log, [FirstPoll, SubmitReply(r)] + rest)
            == if r.Fail? then (log', Some(false)) else Drive(Worker(task, Streaming(0)), monitored, log', rest)
  {
    var inputs := [FirstPoll, SubmitReply(r)] + rest;
    assert inputs[1..] == [SubmitReply(r)] + rest && inputs[1..][1..] == rest;
    assert Drive(Worker(task, Fresh), monitored, log, inputs)
        == Drive(Worker(task, Submitting), monitored, log + [Sent], inputs[1..]);
  }

  /** A future at its stream takes the next status, or the end of the stream. */
  lemma {:induction false} DriveStatus(task: Task, monitored: bool, seen: nat, log: seq<Event>,
                                       stream: seq<TransactionStatus>)
    ensures stream == [] ==>
      Drive(Worker(task, Streaming(seen)), monitored, log, Items(stream)) == (log, Some(false))
    ensures stream != [] ==>
      var log' := log + [TxPoolEvent(stream[0])];
      Drive(Worker(task, Streaming(seen)), monitored, log, Items(stream))
      == if stream[0].IsFinalized() then (log', Some(true))
         else if stream[0].IsError() then (log', Some(false))
         else Drive(Worker(task, Streaming(seen + 1)), monitored, log', Items(stream[1..]))
  {
    if stream == [] {
      assert log + [] == log;
    } else {
      ItemsTail(stream);
    }
  }

  /** The counters have followed the log since it was `before` and they were `tally`. */
  ghost predicate Followed(log: TransactionExecutionLog, tally: Tally, before: seq<Event>)
    reads log, log.totalCounters
  {
    before <= log.events && log.totalCounters.tally == Replay(tally, before, log.events)
  }

  method Note(log: TransactionExecutionLog, e: Event, ghost tally: Tally, ghost before: seq<Event>)
    requires Followed(log, tally, before)
    modifies log`events, log.totalCounters
    ensures log.events == old(log.events) + [e] && Followed(log, tally, before)
  {
    ReplayPush(tally, before, log.events, e);
    log.PushEvent(e);
  }

  /** Sends one watched transaction and follows its stream to the first terminal status; whether there
      is a monitor makes no difference to it. */
  method SendWatchedTx(task: Task, log: TransactionExecutionLog, submitted: Outcome<Error>,
                       stream: seq<TransactionStatus>, ghost monitored: bool) returns (ok: bool)
    requires task.watched
    modifies log`events, log.totalCounters
    ensures (log.events, Some(ok)) == Drive(Worker(task, Fresh), monitored, old(log.events),
                                            [FirstPoll, SubmitReply(submitted)] + Items(stream))
    ensures Followed(log, old(log.totalCounters.tally), old(log.events))
  {
    ghost var tally, before := log.totalCounters.tally, log.events;
    DriveSubmission(task, monitored, before, submitted, Items(stream));
    Note(log, Sent, tally, before);
    Note(log, SubmitAndWatchResult(submitted), tally, before);
    if submitted.Fail? {
      return false;
    }
    ok := FollowStream(task, log, stream, monitored, tally, before);
  }

  /** The loop over the status stream. */
  method FollowStream(task: Task, log: TransactionExecutionLog, stream: seq<TransactionStatus>,
                      ghost monitored: bool, ghost tally: Tally, ghost before: seq<Event>) returns (ok: bool)
    requires Followed(log, tally, before)
    modifies log`events, log.totalCounters
    ensures (log.events, Some(ok)) == Drive(Worker(task, Streaming(0)), monitored, old(log.events), Items(stream))
    ensures Followed(log, tally, before)
  {
    ghost var goal := Drive(Worker(task, Streaming(0)), monitored, log.events, Items(stream));
    var i := 0;
    assert stream[i..] == stream;
    while i < |stream|
      invariant 0 <= i <= |stream|
      invariant goal == Drive(Worker(task, Streaming(i)), monitored, log.events, Items(stream[i..]))
      invariant Followed(log, tally, before)
    {
      DriveStatus(task, monitored, i, log.events, stream[i..]);
      assert stream[i..][1..] == stream[i + 1..];
      Note(log, TxPoolEvent(stream[i]), tally, before);
      if stream[i].IsFinalized() {
        return true;
      } else if stream[i].IsError() {
        return false;
      }
      i := i + 1;
    }
    DriveStatus(task, monitored, i, log.events, stream[i..]);
    ok := false;
  }

  /** An unwatched future that is started, told how its submission went and, if it waits, answered. */
  lemma {:induction false} DrivePlain(task: Task, log: seq<Event>, r: Outcome<Error>, monitored: bool,
                                      reply: Result<Hash, Error>)
    requires !task.watched
    ensures var log' := log + [Sent] + [SubmitResult(r)];
            Drive(Worker(task, Fresh), monitored, log, [FirstPoll, SubmitReply(r), MonitorReply(reply)])
            == if r.Fail? then (log', Some(false))
               else if !monitored then (log', Some(true))
               else match reply
                    case Success(block) => (log' + [FinalizedMonitor(block)], Some(true))
                    case Failure(MortalLifetimeSurpassed(n)) => (log' + [MortalDroppedMonitor(n)], Some(false))
                    case Failure(Other(m)) => (log' + [SubmitResult(Fail(Other(m)))], Some(false))
  {
    var inputs := [FirstPoll, SubmitReply(r), MonitorReply(reply)];
    assert inputs[1..] == [SubmitReply(r), MonitorReply(reply)] && inputs[1..][1..] == [MonitorReply(reply)];
    var log' := log + [Sent] + [SubmitResult(r)];
    assert Drive(Worker(task, Fresh), monitored, log, inputs)
        == Drive(Worker(task, Submitting), monitored, log + [Sent], inputs[1..]);
    if r.Pass? && monitored {
      assert Drive(Worker(task, Submitting), monitored, log + [Sent], inputs[1..])
          == Drive(Worker(task, Waiting), monitored, log', inputs[1..][1..]);
    }
  }

  /** Submits one unwatched transaction and, if there is a monitor, waits for its answer. */
  method SendTx(task: Task, log: TransactionExecutionLog, submitted: Outcome<Error>,
                monitored: bool, reply: Result<Hash, Error>) returns (ok: bool)
    requires !task.watched
    modifies log`events, log.totalCounters
    ensures (log.events, Some(ok)) == Drive(Worker(task, Fresh), monitored, old(log.events),
                                            [FirstPoll, SubmitReply(submitted), MonitorReply(reply)])
    ensures Followed(log, old(log.totalCounters.tally), old(log.events))
  {
    ghost var tally, before := log.totalCounters.tally, log.events;
    DrivePlain(task, before, submitted, monitored, reply);
    Note(log, Sent, tally, before);
    Note(log, SubmitResult(submitted), tally, before);
    if submitted.Fail? {
      return false;
    } else if !monitored {
      return true;
    }
    match reply {
      case Success(block) =>
        Note(log, FinalizedMonitor(block), tally, before);
        ok := true;
      case Failure(MortalLifetimeSurpassed(n)) =>
        Note(log, MortalDroppedMonitor(n), tally, before);
        ok := false;
      case Failure(Other(m)) =>
        Note(log, SubmitResult(Fail(Other(m))), tally, before);
        ok := false;
    }
  }
}
