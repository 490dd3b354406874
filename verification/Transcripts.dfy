/**
 * The logs of a run against the answers its tasks were given: over distinct hashes each log is the
 * transcript of what its own task received, one entry per answer, and the recorded result is decided
 * by the last answer. Nothing is assumed about the sink or the monitor.
 */
module Transcripts {
  import opened Wrappers
  import opened Transactions
  import opened ExecutionLog
  import opened TxTask
  import opened Scheduler
  import opened Budgeting
  import opened Journals

  // ---- What an answer means, whatever the task does with it ----

  /** The entry an answer leaves in the log; the end of a stream leaves none. */
  function Entry(watched: bool, input: Input): seq<Event> {
    match input
    case FirstPoll => [Sent]
    case SubmitReply(r) => [if watched then SubmitAndWatchResult(r) else SubmitResult(r)]
    case StreamItem(None) => []
    case StreamItem(Some(status)) => [TxPoolEvent(status)]
    case MonitorReply(Success(block)) => [FinalizedMonitor(block)]
    case MonitorReply(Failure(MortalLifetimeSurpassed(n))) => [MortalDroppedMonitor(n)]
    case MonitorReply(Failure(Other(m))) => [SubmitResult(Fail(Other(m)))]
  }

  function Transcript(watched: bool, inputs: seq<Input>): seq<Event> {
    if inputs == [] then []
    else Transcript(watched, inputs[..|inputs| - 1]) + Entry(watched, inputs[|inputs| - 1])
  }

  /** The result an answer settles: `Done`, `Error`, or nothing yet. */
  function Settles(watched: bool, monitored: bool, input: Input): Option<bool> {
    match input
    case FirstPoll => None
    case SubmitReply(r) => if r.Fail? then Some(false) else if watched || monitored then None else Some(true)
    case StreamItem(None) => Some(false)
    case StreamItem(Some(status)) => if status.IsTerminal() then Some(status.IsFinalized()) else None
    case MonitorReply(reply) => Some(reply.Success?)
  }

  function Verdict(watched: bool, monitored: bool, inputs: seq<Input>): Option<bool> {
    if inputs == [] then None else Settles(watched, monitored, inputs[|inputs| - 1])
  }

  /** Nothing but the last answer settles anything. */
  ghost predicate Undecided(watched: bool, monitored: bool, inputs: seq<Input>) {
    forall i :: 0 <= i < |inputs| - 1 ==> Settles(watched, monitored, inputs[i]) == None
  }

  /** The statuses among the answers, and the ones among the entries of a log. */
  function Delivered(inputs: seq<Input>): seq<TransactionStatus> {
    if inputs == [] then []
    else
      var last := inputs[|inputs| - 1];
      Delivered(inputs[..|inputs| - 1])
      + (if last.StreamItem? && last.item.Some? then [last.item.value] else [])
  }

  function InPool(log: seq<Event>): seq<TransactionStatus> {
    if log == [] then []
    else
      var last := log[|log| - 1];
      InPool(log[..|log| - 1]) + (if last.TxPoolEvent? then [last.status] else [])
  }

  /** The entries of some statuses. */
  function PoolEvents(statuses: seq<TransactionStatus>): (es: seq<Event>)
    ensures |es| == |statuses| && forall i :: 0 <= i < |statuses| ==> es[i] == TxPoolEvent(statuses[i])
  {
    seq(|statuses|, i requires 0 <= i < |statuses| => TxPoolEvent(statuses[i]))
  }

  // ---- What a task receives in the course of a run ----

  /** The answer a step gives to the worker of hash `h`, if it is one it waits for. */
  function Heard(s: State, l: Label, h: Hash): seq<Input> {
    if s.phase.Running? && l.Work? && l.i < |s.live| && s.live[l.i].task.hash == h
       && !React(s.live[l.i], s.monitored, l.input).Ignored?
    then [l.input]
    else []
  }

  function Received(s: State, ls: seq<Label>, h: Hash): seq<Input>
    requires Valid(s)
    decreases |ls|
  {
    if ls == [] then [] else Heard(s, ls[0], h) + Received(Step(s, ls[0]), ls[1..], h)
  }

  // ---- The invariant ----

  ghost predicate Queued(s: State, h: Hash) {
    exists j :: 0 <= j < |s.queue| && s.queue[j].hash == h
  }

  /** The log of task `t` is the transcript of `inputs`, or empty while the task is queued. */
  ghost predicate LogTold(s: State, t: Task, inputs: seq<Input>) {
    && t.hash in s.logs
    && (Queued(s, t.hash) ==> inputs == [] && s.logs[t.hash] == [])
    && (!Queued(s, t.hash) ==> s.logs[t.hash] == [Popped] + Transcript(t.watched, inputs))
  }

  /** Task `t` is where `inputs` have brought it. */
  ghost predicate PlaceTold(s: State, t: Task, inputs: seq<Input>) {
    && (forall j :: 0 <= j < |s.queue| && s.queue[j].hash == t.hash ==> s.queue[j] == t)
    && Undecided(t.watched, s.monitored, inputs)
    && (forall i :: 0 <= i < |s.live| && s.live[i].task.hash == t.hash ==>
          s.live[i].task == t && Verdict(t.watched, s.monitored, inputs) == None)
    && (t.hash in s.done ==> Verdict(t.watched, s.monitored, inputs) == Some(true))
    && (t.hash in s.errors ==> Verdict(t.watched, s.monitored, inputs) == Some(false))
  }

  /** The state knows of task `t` exactly what `inputs` say. */
  ghost predicate Told(s: State, t: Task, inputs: seq<Input>) {
    LogTold(s, t, inputs) && PlaceTold(s, t, inputs)
  }

  /** A worker logs the entry of the answer and returns exactly when the answer settles the result. */
  lemma {:induction false} ReactTells(w: Worker, monitored: bool, input: Input)
    ensures match React(w, monitored, input)
            case Ignored => true
            case Continues(e, _) =>
              Entry(w.task.watched, input) == [e] && Settles(w.task.watched, monitored, input) == None
            case Returns(es, ok) =>
              Entry(w.task.watched, input) == es && Settles(w.task.watched, monitored, input) == Some(ok)
  {
  }

  lemma {:induction false} StartTold(s: State, t: Task, inputs: seq<Input>)
    requires Valid(s) && Apart(s) && Told(s, t, inputs) && s.queue != []
    ensures Told(StartNext(s), t, inputs)
  {
    var n := |s.queue| - 1;
    var s' := StartNext(s);
    if s.queue[n].hash == t.hash {
      assert Queued(s, t.hash) && s.queue[n] == t;
      assert !Queued(s', t.hash);
      assert s'.logs[t.hash] == [] + [Popped];
    } else {
      assert s'.logs[t.hash] == s.logs[t.hash];
      assert forall j :: 0 <= j < |s'.queue| ==> s'.queue[j] == s.queue[j];
      assert Queued(s, t.hash) ==> Queued(s', t.hash) by {
        if Queued(s, t.hash) {
          var j :| 0 <= j < |s.queue| && s.queue[j].hash == t.hash;
          assert s'.queue[j].hash == t.hash;
        }
      }
    }
  }

  lemma {:induction false} RefillTold(s: State, budget: nat, t: Task, inputs: seq<Input>)
    requires Valid(s) && Single(s) && Told(s, t, inputs)
    ensures Told(Refill(s, budget), t, inputs)
    decreases |s.queue|
  {
    if budget != 0 && s.queue != [] {
      SingleIsApart(s);
      StartTold(s, t, inputs);
      StartNextSingle(s);
      RefillTold(StartNext(s), budget - 1, t, inputs);
    }
  }

  lemma {:induction false} ConsumeTold(s: State, pending: nat, t: Task, inputs: seq<Input>)
    requires Valid(s) && Single(s) && Told(s, t, inputs)
    ensures Told(ConsumePending(s, pending), t, inputs)
  {
    var s' := Sampled(s, pending);
    forall h ensures Occurrences(s', h) <= 1 {
      assert Occurrences(s, h) <= 1;
    }
    assert Queued(s', t.hash) <==> Queued(s, t.hash);
    RefillTold(s', Budget(s, pending), t, inputs);
  }

  lemma {:induction false} TranscriptSnoc(watched: bool, inputs: seq<Input>, input: Input)
    ensures Transcript(watched, inputs + [input]) == Transcript(watched, inputs) + Entry(watched, input)
  {
    assert (inputs + [input])[..|inputs|] == inputs;
  }

  lemma {:induction false} OwnAdvanceLog(s: State, i: nat, e: Event, next: Stage, t: Task, inputs: seq<Input>,
                                         input: Input)
    requires Valid(s) && Apart(s) && i < |s.live| && LogTold(s, t, inputs) && s.live[i].task.hash == t.hash
    requires Entry(t.watched, input) == [e]
    ensures LogTold(Advanced(s, i, e, next), t, inputs + [input])
  {
    var s' := Advanced(s, i, e, next);
    assert s'.queue == s.queue && !Queued(s, t.hash) && !Queued(s', t.hash);
    TranscriptSnoc(t.watched, inputs, input);
    assert s'.logs[t.hash] == s.logs[t.hash] + [e];
  }

  lemma {:induction false} OwnAdvancePlace(s: State, i: nat, e: Event, next: Stage, t: Task, inputs: seq<Input>,
                                           input: Input)
    requires Valid(s) && Apart(s) && i < |s.live| && PlaceTold(s, t, inputs) && s.live[i].task.hash == t.hash
    requires Settles(t.watched, s.monitored, input) == None
    ensures PlaceTold(Advanced(s, i, e, next), t, inputs + [input])
  {
    assert t.hash !in s.done && t.hash !in s.errors;
    assert Verdict(t.watched, s.monitored, inputs + [input]) == None;
  }

  lemma {:induction false} OtherAdvanceTold(s: State, i: nat, e: Event, next: Stage, t: Task, inputs: seq<Input>)
    requires Valid(s) && i < |s.live| && Told(s, t, inputs) && s.live[i].task.hash != t.hash
    ensures Told(Advanced(s, i, e, next), t, inputs)
  {
    var s' := Advanced(s, i, e, next);
    assert s'.queue == s.queue && (Queued(s', t.hash) <==> Queued(s, t.hash));
    assert s'.logs[t.hash] == s.logs[t.hash];
  }

  lemma {:induction false} AdvancedTold(s: State, i: nat, e: Event, next: Stage, t: Task, inputs: seq<Input>,
                                        input: Input)
    requires Valid(s) && Apart(s) && i < |s.live| && Told(s, t, inputs)
    requires Entry(s.live[i].task.watched, input) == [e]
    requires Settles(s.live[i].task.watched, s.monitored, input) == None
    ensures Told(Advanced(s, i, e, next), t, if s.live[i].task.hash == t.hash then inputs + [input] else inputs)
  {
    if s.live[i].task.hash == t.hash {
      OwnAdvanceLog(s, i, e, next, t, inputs, input);
      OwnAdvancePlace(s, i, e, next, t, inputs, input);
    } else {
      OtherAdvanceTold(s, i, e, next, t, inputs);
    }
  }

  lemma {:induction false} OwnReturnLog(s: State, i: nat, es: seq<Event>, ok: bool, t: Task, inputs: seq<Input>,
                                        input: Input)
    requires Valid(s) && Apart(s) && i < |s.live| && LogTold(s, t, inputs) && s.live[i].task.hash == t.hash
    requires Entry(t.watched, input) == es
    ensures LogTold(Returned(s, i, es, ok), t, inputs + [input])
  {
    var s' := Returned(s, i, es, ok);
    assert s'.queue == s.queue && !Queued(s, t.hash) && !Queued(s', t.hash);
    TranscriptSnoc(t.watched, inputs, input);
    assert s'.logs[t.hash] == s.logs[t.hash] + es;
  }

  lemma {:induction false} OwnReturnPlace(s: State, i: nat, es: seq<Event>, ok: bool, t: Task, inputs: seq<Input>,
                                          input: Input)
    requires Valid(s) && Apart(s) && i < |s.live| && PlaceTold(s, t, inputs) && s.live[i].task.hash == t.hash
    requires Settles(t.watched, s.monitored, input) == Some(ok)
    ensures PlaceTold(Returned(s, i, es, ok), t, inputs + [input])
  {
    var s' := Returned(s, i, es, ok);
    assert forall j :: 0 <= j < |s'.live| ==> s'.live[j].task.hash != t.hash;
    assert t.hash !in s.done && t.hash !in s.errors;
    assert Verdict(t.watched, s.monitored, inputs + [input]) == Some(ok);
  }

  lemma {:induction false} OtherReturnTold(s: State, i: nat, es: seq<Event>, ok: bool, t: Task, inputs: seq<Input>)
    requires Valid(s) && i < |s.live| && Told(s, t, inputs) && s.live[i].task.hash != t.hash
    ensures Told(Returned(s, i, es, ok), t, inputs)
  {
    var s' := Returned(s, i, es, ok);
    assert s'.queue == s.queue && (Queued(s', t.hash) <==> Queued(s, t.hash));
    assert s'.logs[t.hash] == s.logs[t.hash];
    assert t.hash in s'.done ==> t.hash in s.done;
    assert t.hash in s'.errors ==> t.hash in s.errors;
  }

  lemma {:induction false} ReturnedTold(s: State, i: nat, es: seq<Event>, ok: bool, t: Task, inputs: seq<Input>,
                                        input: Input)
    requires Valid(s) && Apart(s) && i < |s.live| && Told(s, t, inputs)
    requires Entry(s.live[i].task.watched, input) == es
    requires Settles(s.live[i].task.watched, s.monitored, input) == Some(ok)
    ensures Told(Returned(s, i, es, ok), t, if s.live[i].task.hash == t.hash then inputs + [input] else inputs)
  {
    if s.live[i].task.hash == t.hash {
      OwnReturnLog(s, i, es, ok, t, inputs, input);
      OwnReturnPlace(s, i, es, ok, t, inputs, input);
    } else {
      OtherReturnTold(s, i, es, ok, t, inputs);
    }
  }

  lemma {:induction false} StepTold(s: State, l: Label, t: Task, inputs: seq<Input>)
    requires Valid(s) && Single(s) && Told(s, t, inputs)
    ensures Told(Step(s, l), t, inputs + Heard(s, l, t.hash))
  {
    assert inputs + [] == inputs;
    if !s.phase.Running? {
      assert Step(s, l) == s;
    } else if l.Work? {
      if l.i < |s.live| {
        WorkTold(s, l, t, inputs);
      }
    } else if l.Tick? {
      ConsumeTold(s, l.pending, t, inputs);
    } else {
      assert Queued(Step(s, l), t.hash) <==> Queued(s, t.hash);
    }
  }

  lemma {:induction false} WorkTold(s: State, l: Label, t: Task, inputs: seq<Input>)
    requires Valid(s) && Single(s) && Told(s, t, inputs) && s.phase.Running? && l.Work? && l.i < |s.live|
    ensures Told(Step(s, l), t, inputs + Heard(s, l, t.hash))
  {
    var w := s.live[l.i];
    assert inputs + [] == inputs;
    SingleIsApart(s);
    ReactTells(w, s.monitored, l.input);
    match React(w, s.monitored, l.input)
    case Ignored =>
    case Continues(e, next) => AdvancedTold(s, l.i, e, next, t, inputs, l.input);
    case Returns(es, ok) =>
      ReturnedTold(s, l.i, es, ok, t, inputs, l.input);
      ReturnedSingle(s, l.i, es, ok);
      ConsumeTold(Returned(s, l.i, es, ok), l.pending, t, inputs + Heard(s, l, t.hash));
  }

  lemma {:induction false} StepSingle(s: State, l: Label)
    requires Valid(s) && Single(s)
    ensures Single(Step(s, l))
  {
    forall h ensures Occurrences(Step(s, l), h) <= 1 {
      assert Occurrences(s, h) <= 1;
      StepKeepsOccurrences(s, l, h);
    }
  }

  lemma {:induction false} ReceivedFirst(s: State, ls: seq<Label>, h: Hash, inputs: seq<Input>, all: seq<Input>)
    requires Valid(s) && ls != [] && all == inputs + Received(s, ls, h)
    ensures all == (inputs + Heard(s, ls[0], h)) + Received(Step(s, ls[0]), ls[1..], h)
  {
    var heard, rest := Heard(s, ls[0], h), Received(Step(s, ls[0]), ls[1..], h);
    assert Received(s, ls, h) == heard + rest;
    assert inputs + (heard + rest) == (inputs + heard) + rest;
  }

  ghost predicate ToldOnce(s: State, t: Task, inputs: seq<Input>) {
    Valid(s) && Single(s) && Told(s, t, inputs)
  }

  lemma {:induction false} StepToldOnce(s: State, l: Label, t: Task, inputs: seq<Input>)
    requires ToldOnce(s, t, inputs)
    ensures ToldOnce(Step(s, l), t, inputs + Heard(s, l, t.hash))
  {
    StepTold(s, l, t, inputs);
    StepSingle(s, l);
  }

  lemma {:induction false} ExecTold(s: State, ls: seq<Label>, t: Task, inputs: seq<Input>, all: seq<Input>)
    requires ToldOnce(s, t, inputs) && all == inputs + Received(s, ls, t.hash)
    ensures ToldOnce(Exec(s, ls), t, all)
    decreases |ls|
  {
    if ls == [] {
      assert all == inputs;
    } else {
      StepToldOnce(s, ls[0], t, inputs);
      ReceivedFirst(s, ls, t.hash, inputs, all);
      ExecTold(Step(s, ls[0]), ls[1..], t, inputs + Heard(s, ls[0], t.hash), all);
    }
  }

  lemma {:induction false} NewTold(threshold: nat, monitored: bool, txs: seq<Task>, k: nat)
    requires Distinct(Hashes(txs)) && k < |txs|
    ensures ToldOnce(New(threshold, monitored, txs), txs[k], [])
  {
    var s := New(threshold, monitored, txs);
    DistinctIsSingle(threshold, monitored, txs);
    NewGrammatical(threshold, monitored, txs);
    assert s.queue[k].hash == txs[k].hash;
    forall j | 0 <= j < |txs| && txs[j].hash == txs[k].hash ensures txs[j] == txs[k] {
      SameHashSameTask(txs, k, txs[j]);
    }
  }

  lemma {:induction false} BeginTold(threshold: nat, monitored: bool, txs: seq<Task>, k: nat)
    requires Distinct(Hashes(txs)) && k < |txs|
    ensures ToldOnce(Begin(threshold, monitored, txs), txs[k], [])
  {
    var s := New(threshold, monitored, txs);
    NewTold(threshold, monitored, txs, k);
    NewGrammatical(threshold, monitored, txs);
    RefillTold(s, threshold, txs[k], []);
    RefillGrammatical(txs, s, threshold);
  }

  // ---- Over whole runs ----

  /** All that task `k` was answered in the course of a run. */
  function AllHeard(threshold: nat, monitored: bool, txs: seq<Task>, ls: seq<Label>, k: nat): seq<Input>
    requires k < |txs|
  {
    Received(Begin(threshold, monitored, txs), ls, txs[k].hash)
  }

  /** Log and result of task `t` are what its answers make them; `waiting` if it is still queued. */
  ghost predicate Transcribed(s: State, t: Task, waiting: bool, inputs: seq<Input>) {
    && t.hash in s.logs
    && s.logs[t.hash] == (if waiting then [] else [Popped] + Transcript(t.watched, inputs))
    && (waiting ==> inputs == [])
    && Undecided(t.watched, s.monitored, inputs)
    && (t.hash in s.done <==> Verdict(t.watched, s.monitored, inputs) == Some(true))
    && (t.hash in s.errors <==> Verdict(t.watched, s.monitored, inputs) == Some(false))
  }

  /**
   * In every reachable state of every run over distinct hashes: a queued task has an empty log, and
   * the log of any other task is `Popped` followed by the transcript of what that task was answered.
   * It is done or failed exactly when its last answer says so, and no earlier answer said so.
   */
  lemma {:induction false} RunTranscripts(threshold: nat, monitored: bool, txs: seq<Task>, ls: seq<Label>, k: nat)
    requires Distinct(Hashes(txs)) && k < |txs|
    ensures var s := Run(threshold, monitored, txs, ls);
            Transcribed(s, txs[k], k < |s.queue|, AllHeard(threshold, monitored, txs, ls, k))
  {
    var inputs := AllHeard(threshold, monitored, txs, ls, k);
    BeginTold(threshold, monitored, txs, k);
    assert [] + inputs == inputs;
    ExecTold(Begin(threshold, monitored, txs), ls, txs[k], [], inputs);
    RunWhereabouts(threshold, monitored, txs, ls, k);
    ToldIsTranscribed(txs, Run(threshold, monitored, txs, ls), k, inputs);
  }

  lemma {:induction false} ToldIsTranscribed(txs: seq<Task>, s: State, k: nat, inputs: seq<Input>)
    requires k < |txs| && Told(s, txs[k], inputs) && Whereabouts(txs, s, k)
    ensures Transcribed(s, txs[k], k < |s.queue|, inputs)
  {
    if k < |s.queue| {
      assert s.queue[k].hash == txs[k].hash;
    } else {
      assert !Queued(s, txs[k].hash);
    }
  }

  lemma {:induction false} RunCountsOnce(threshold: nat, monitored: bool, txs: seq<Task>, ls: seq<Label>)
    requires Distinct(Hashes(txs))
    ensures var s := Run(threshold, monitored, txs, ls);
            Single(s) && forall h :: Occurrences(s, h) == TaskCount(txs, h)
  {
    var s := Run(threshold, monitored, txs, ls);
    forall h ensures Occurrences(s, h) == TaskCount(txs, h) && Occurrences(s, h) <= 1 {
      RefillKeepsOccurrences(New(threshold, monitored, txs), threshold, h);
      ExecKeepsOccurrences(Begin(threshold, monitored, txs), ls, h);
      TaskCountDistinct(txs, h);
    }
  }

  /** A task is queued, live, done or failed. */
  lemma {:induction false} RunWhereabouts(threshold: nat, monitored: bool, txs: seq<Task>, ls: seq<Label>, k: nat)
    requires Distinct(Hashes(txs)) && k < |txs|
    ensures Whereabouts(txs, Run(threshold, monitored, txs, ls), k)
  {
    RunDispatchesInOrder(threshold, monitored, txs, ls);
    RunCountsOnce(threshold, monitored, txs, ls);
    TaskIsSomewhere(txs, Run(threshold, monitored, txs, ls), k);
  }

  ghost predicate Whereabouts(txs: seq<Task>, s: State, k: nat)
    requires k < |txs|
  {
    var h := txs[k].hash;
    && InOrder(txs, s)
    && (k < |s.queue| ==> h !in s.done && h !in s.errors)
    && (k >= |s.queue| ==>
          && !Queued(s, h)
          && ((exists i :: 0 <= i < |s.live| && s.live[i].task.hash == h) || h in s.done || h in s.errors))
  }

  lemma {:induction false} TaskIsSomewhere(txs: seq<Task>, s: State, k: nat)
    requires Distinct(Hashes(txs)) && k < |txs| && InOrder(txs, s) && Single(s)
    requires Occurrences(s, txs[k].hash) == TaskCount(txs, txs[k].hash)
    ensures Whereabouts(txs, s, k)
  {
    var hs := Hashes(txs);
    if k < |s.queue| {
      SingleQueueApart(s, k);
    } else {
      assert s.started[|txs| - 1 - k] == txs[k];
      assert Hashes(s.started)[|txs| - 1 - k] == hs[k];
      StartedIsLiveOrFinished(txs, s, hs[k]);
      forall j | 0 <= j < |s.queue| ensures s.queue[j].hash != hs[k] {
        assert s.queue[j].hash == hs[j] && hs[j] != hs[k];
      }
    }
  }

  lemma {:induction false} InPoolConcat(log: seq<Event>, es: seq<Event>)
    ensures InPool(log + es) == InPool(log) + InPool(es)
  {
    if es == [] {
      assert log + es == log;
    } else {
      var n := |es| - 1;
      assert (log + es)[..|log + es| - 1] == log + es[..n];
      InPoolConcat(log, es[..n]);
    }
  }

  lemma {:induction false} EntryInPool(watched: bool, input: Input)
    ensures InPool(Entry(watched, input))
         == (if input.StreamItem? && input.item.Some? then [input.item.value] else [])
  {
    var es := Entry(watched, input);
    if es != [] {
      assert es[..0] == [];
      assert InPool([]) == [];
    }
  }

  lemma {:induction false} TranscriptInPool(watched: bool, inputs: seq<Input>)
    ensures InPool(Transcript(watched, inputs)) == Delivered(inputs)
  {
    if inputs != [] {
      var n := |inputs| - 1;
      TranscriptInPool(watched, inputs[..n]);
      EntryInPool(watched, inputs[n]);
      InPoolConcat(Transcript(watched, inputs[..n]), Entry(watched, inputs[n]));
    }
  }

  lemma {:induction false} DeliveredShortest(watched: bool, monitored: bool, inputs: seq<Input>)
    requires Undecided(watched, monitored, inputs)
    ensures forall i :: 0 <= i < |Delivered(inputs)| - 1 ==> !Delivered(inputs)[i].IsTerminal()
    ensures Verdict(watched, monitored, inputs) == None ==> NoneTerminal(Delivered(inputs))
  {
    if inputs != [] {
      var n := |inputs| - 1;
      DeliveredShortest(watched, monitored, inputs[..n]);
      assert n > 0 ==> Settles(watched, monitored, inputs[n - 1]) == None;
    }
  }

  predicate NoneTerminal(statuses: seq<TransactionStatus>) {
    forall i :: 0 <= i < |statuses| ==> !statuses[i].IsTerminal()
  }

  /**
   * The statuses in a log are the ones delivered to its task, all of them and in the same order, up
   * to the first terminal one: none but the last is terminal, and none at all while the task lives.
   */
  lemma {:induction false} RunStatusesDelivered(threshold: nat, monitored: bool, txs: seq<Task>, ls: seq<Label>, k: nat)
    requires Distinct(Hashes(txs)) && k < |txs|
    ensures var s, h := Run(threshold, monitored, txs, ls), txs[k].hash;
            var statuses := Delivered(AllHeard(threshold, monitored, txs, ls, k));
            && h in s.logs && InPool(s.logs[h]) == statuses
            && (forall i :: 0 <= i < |statuses| - 1 ==> !statuses[i].IsTerminal())
            && (h !in s.done && h !in s.errors ==> NoneTerminal(statuses))
  {
    var s := Run(threshold, monitored, txs, ls);
    RunTranscripts(threshold, monitored, txs, ls, k);
    TranscribedStatuses(s, txs[k], k < |s.queue|, AllHeard(threshold, monitored, txs, ls, k));
  }

  lemma {:induction false} TranscribedStatuses(s: State, t: Task, waiting: bool, inputs: seq<Input>)
    requires Transcribed(s, t, waiting, inputs)
    ensures var statuses := Delivered(inputs);
            && InPool(s.logs[t.hash]) == statuses
            && (forall i :: 0 <= i < |statuses| - 1 ==> !statuses[i].IsTerminal())
            && (t.hash !in s.done && t.hash !in s.errors ==> NoneTerminal(statuses))
  {
    LogStatuses(t.watched, inputs);
    DeliveredShortest(t.watched, s.monitored, inputs);
  }

  lemma {:induction false} LogStatuses(watched: bool, inputs: seq<Input>)
    ensures InPool([Popped] + Transcript(watched, inputs)) == Delivered(inputs)
  {
    TranscriptInPool(watched, inputs);
    InPoolConcat([Popped], Transcript(watched, inputs));
    assert [Popped][..0] == [];
  }

  // ---- Shape and contents together ----

  lemma {:induction false} PoolTail(log: seq<Event>)
    requires |log| >= 3 && (forall i :: 0 <= i < 3 ==> !log[i].TxPoolEvent?)
    requires forall i :: 3 <= i < |log| ==> log[i].TxPoolEvent?
    ensures log == log[..3] + PoolEvents(InPool(log))
  {
    if |log| == 3 {
      ThreeNotInPool(log);
    } else {
      var n := |log| - 1;
      PoolTail(log[..n]);
      assert log[..n][..3] == log[..3];
      assert PoolEvents(InPool(log)) == PoolEvents(InPool(log[..n])) + [log[n]];
    }
  }

  lemma {:induction false} ThreeNotInPool(log: seq<Event>)
    requires |log| == 3 && forall i :: 0 <= i < 3 ==> !log[i].TxPoolEvent?
    ensures InPool(log) == []
  {
    assert InPool(log[..1]) == [] by {
      assert log[..1][..0] == [];
    }
    assert InPool(log[..2]) == [] by {
      assert log[..2][..1] == log[..1];
    }
    assert log[..3] == log;
  }

  /** A log of a watched task that holds a submit outcome goes on with statuses only. */
  ghost predicate HeadThenStatuses(log: seq<Event>, statuses: seq<TransactionStatus>) {
    && |log| >= 3 && log[0] == Popped && log[1] == Sent && log[2].SubmitAndWatchResult?
    && log == log[..3] + PoolEvents(statuses)
  }

  lemma {:induction false} WatchedShape(txs: seq<Task>, s: State, k: nat)
    requires Distinct(Hashes(txs)) && k < |txs| && txs[k].watched
    requires Grammatical(txs, s) && Whereabouts(txs, s, k) && |s.logs[txs[k].hash]| >= 3
    ensures HeadThenStatuses(s.logs[txs[k].hash], InPool(s.logs[txs[k].hash]))
  {
    var h := txs[k].hash;
    assert forall j :: 0 <= j < |s.queue| ==> s.queue[j] == txs[j] && s.logs[s.queue[j].hash] == [];
    if h !in s.done && h !in s.errors {
      var i :| 0 <= i < |s.live| && s.live[i].task.hash == h;
      SameHashSameTask(txs, k, s.live[i].task);
      LiveShape(s.live[i].task, s.live[i].stage, s.logs[h]);
    }
    PoolTail(s.logs[h]);
  }

  lemma {:induction false} LiveShape(task: Task, stage: Stage, log: seq<Event>)
    requires task.watched && LiveLog(task, stage, log) && |log| >= 3
    ensures log[0] == Popped && log[1] == Sent && log[2].SubmitAndWatchResult?
    ensures forall i :: 3 <= i < |log| ==> log[i].TxPoolEvent?
  {
    assert log[..3] == [Popped, Sent, SubmitAndWatchResult(Pass)];
    assert log[0] == log[..3][0] && log[1] == log[..3][1] && log[2] == log[..3][2];
  }

  /**
   * In every reachable state of a run over distinct hashes in which the monitor has answered only
   * `Ok` or mortal expiry: every log is a word of the grammar, and after its submit outcome the log
   * of a watched task holds exactly the statuses its stream delivered, up to the first terminal one.
   */
  lemma {:induction false} RunJournals(threshold: nat, monitored: bool, txs: seq<Task>, ls: seq<Label>, k: nat)
    requires Distinct(Hashes(txs)) && AllBenign(ls) && k < |txs|
    ensures var s, h := Run(threshold, monitored, txs, ls), txs[k].hash;
            var statuses := Delivered(AllHeard(threshold, monitored, txs, ls, k));
            && Grammatical(txs, s)
            && (txs[k].watched && |s.logs[h]| >= 3 ==> HeadThenStatuses(s.logs[h], statuses))
            && (forall i :: 0 <= i < |statuses| - 1 ==> !statuses[i].IsTerminal())
            && (h !in s.done && h !in s.errors ==> NoneTerminal(statuses))
  {
    var s := Run(threshold, monitored, txs, ls);
    RunGrammatical(threshold, monitored, txs, ls);
    RunStatusesDelivered(threshold, monitored, txs, ls, k);
    RunWhereabouts(threshold, monitored, txs, ls, k);
    if txs[k].watched && |s.logs[txs[k].hash]| >= 3 {
      WatchedShape(txs, s, k);
    }
  }
}
