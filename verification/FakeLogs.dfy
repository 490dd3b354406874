/**
 * What the logs and the results of a run against the fake sink are, as functions of the scripts of
 * its transactions (src/fake_transaction.rs) and of nothing else.
 */
module FakeLogs {
  import opened Wrappers
  import opened Transactions
  import opened ExecutionLog
  import opened TxTask
  import opened Scheduler
  import opened Journals
  import opened Transcripts
  import opened FakeSink
  import opened FakeRuns
  import opened FakeCompletion

  // ---- What a script amounts to ----

  /** The part of a script that is played: up to its first terminal status, or all of it. */
  function Played(script: seq<TransactionStatus>): (played: seq<TransactionStatus>)
    ensures played <= script
    ensures forall i :: 0 <= i < |played| - 1 ==> !played[i].IsTerminal()
    ensures played == script || (played != [] && played[|played| - 1].IsTerminal())
  {
    if script == [] then []
    else if script[0].IsTerminal() then [script[0]]
    else [script[0]] + Played(script[1..])
  }

  lemma {:induction false} PlayedTo(script: seq<TransactionStatus>, seen: nat)
    requires seen < |script| && NoTerminal(script[..seen]) && script[seen].IsTerminal()
    ensures Played(script) == script[..seen + 1]
  {
    if seen > 0 {
      assert script[..seen][0] == script[0];
      assert script[1..][..seen - 1] == script[..seen][1..];
      PlayedTo(script[1..], seen - 1);
    }
  }

  lemma {:induction false} PlayedAll(script: seq<TransactionStatus>)
    requires NoTerminal(script)
    ensures Played(script) == script
  {
    var p := Played(script);
    assert p != [] ==> p[|p| - 1] == script[|p| - 1];
  }

  /** The status that decides: the last one played, or for a plain submission the last scripted one. */
  function Deciding(t: Task): seq<TransactionStatus> {
    if t.watched then Played(t.script) else t.script
  }

  /** A fake transaction succeeds if the status that decides is `Finalized`. */
  predicate Succeeds(t: Task) {
    var statuses := Deciding(t);
    statuses != [] && statuses[|statuses| - 1].IsFinalized()
  }

  /** A plain submission is accepted exactly for a final last status; otherwise its error spells out
      the kind and the message of that status, and any other script panics. */
  lemma {:induction false} ScriptedResultMeans(script: seq<TransactionStatus>)
    ensures ScriptedResult(script).None? <==> script == [] || !script[|script| - 1].IsTerminal()
    ensures ScriptedResult(script) == Some(Pass) <==> script != [] && script[|script| - 1].IsFinalized()
    ensures forall m :: script != [] && script[|script| - 1] == Dropped(m) ==>
      ScriptedResult(script) == Some(Fail(Other("submit-error:dropped:" + m)))
    ensures forall m :: script != [] && script[|script| - 1] == Invalid(m) ==>
      ScriptedResult(script) == Some(Fail(Other("submit-error:invalid:" + m)))
    ensures forall m :: script != [] && script[|script| - 1] == Errored(m) ==>
      ScriptedResult(script) == Some(Fail(Other("submit-error:error:" + m)))
  {
    assert "submit-error:" + "dropped" + ":" == "submit-error:dropped:";
    assert "submit-error:" + "invalid" + ":" == "submit-error:invalid:";
    assert "submit-error:" + "error" + ":" == "submit-error:error:";
  }

  const WATCHED_HEAD: seq<Event> := [Popped, Sent, SubmitAndWatchResult(Pass)]

  /** The log of a live worker. */
  function LogSoFar(w: Worker): seq<Event> {
    match w.stage
    case Fresh => [Popped]
    case Submitting => [Popped, Sent]
    case Streaming(seen) => WATCHED_HEAD + PoolEvents(w.task.script[..if seen <= |w.task.script| then seen else 0])
    case Waiting => []
  }

  /** The log of a finished task. */
  function FinalLog(t: Task): seq<Event> {
    if t.watched then WATCHED_HEAD + PoolEvents(Played(t.script))
    else if ScriptedResult(t.script).None? then []
    else [Popped, Sent, SubmitResult(ScriptedResult(t.script).value)]
  }

  // ---- The answers a task gets from the fake sink ----

  function Statuses(statuses: seq<TransactionStatus>): (inputs: seq<Input>)
    ensures |inputs| == |statuses| && forall i :: 0 <= i < |statuses| ==> inputs[i] == StreamItem(Some(statuses[i]))
  {
    seq(|statuses|, i requires 0 <= i < |statuses| => StreamItem(Some(statuses[i])))
  }

  function InputsSoFar(w: Worker): seq<Input> {
    match w.stage
    case Fresh => []
    case Submitting => [FirstPoll]
    case Streaming(seen) =>
      [FirstPoll, SubmitReply(Pass)] + Statuses(w.task.script[..if seen <= |w.task.script| then seen else 0])
    case Waiting => []
  }

  function AllInputs(t: Task): seq<Input> {
    if t.watched then
      [FirstPoll, SubmitReply(Pass)] + Statuses(Played(t.script))
      + (if NoTerminal(t.script) then [StreamItem(None)] else [])
    else if ScriptedResult(t.script).None? then []
    else [FirstPoll, SubmitReply(ScriptedResult(t.script).value)]
  }

  lemma {:induction false} StatusesSnoc(head: seq<Input>, statuses: seq<TransactionStatus>, x: TransactionStatus)
    ensures head + Statuses(statuses + [x]) == (head + Statuses(statuses)) + [StreamItem(Some(x))]
    ensures PoolEvents(statuses + [x]) == PoolEvents(statuses) + [TxPoolEvent(x)]
  {
  }

  /** The next answer takes a worker one step further along its script. */
  lemma {:induction false} AnswerFollowsScript(pool: set<Hash>, w: Worker)
    requires WorkerFits(pool, w) && Answer(w).Some?
    ensures var input := Answer(w).value;
            match React(w, false, input)
            case Ignored => false
            case Continues(_, next) => InputsSoFar(w) + [input] == InputsSoFar(Worker(w.task, next))
            case Returns(_, _) => InputsSoFar(w) + [input] == AllInputs(w.task)
  {
    if w.stage.Streaming? {
      StreamFollowsScript(w.task.script, w.stage.seen);
    }
  }

  lemma {:induction false} StreamFollowsScript(script: seq<TransactionStatus>, seen: nat)
    requires seen <= |script| && NoTerminal(script[..seen])
    ensures seen == |script| ==> script[..seen] == script && Played(script) == script
    ensures seen < |script| ==>
      var head := [FirstPoll, SubmitReply(Pass)];
      head + Statuses(script[..seen]) + [StreamItem(Some(script[seen]))] == head + Statuses(script[..seen + 1])
    ensures seen < |script| && script[seen].IsTerminal() ==> Played(script) == script[..seen + 1] && !NoTerminal(script)
  {
    if seen == |script| {
      assert script[..seen] == script;
      PlayedAll(script);
    } else {
      assert script[..seen + 1] == script[..seen] + [script[seen]];
      StatusesSnoc([FirstPoll, SubmitReply(Pass)], script[..seen], script[seen]);
      if script[seen].IsTerminal() {
        PlayedTo(script, seen);
      }
    }
  }

  // ---- The invariant ----

  /** Task `t` has received what its script says. */
  ghost predicate Fed(s: State, t: Task, inputs: seq<Input>) {
    && (forall i :: 0 <= i < |s.live| && s.live[i].task.hash == t.hash ==> inputs == InputsSoFar(s.live[i]))
    && (t.hash in s.done || t.hash in s.errors ==> inputs == AllInputs(t))
  }

  lemma {:induction false} RefillFed(s: State, budget: nat, t: Task, inputs: seq<Input>)
    requires ToldOnce(s, t, inputs) && Fed(s, t, inputs)
    ensures Fed(Refill(s, budget), t, inputs)
    decreases |s.queue|
  {
    if budget != 0 && s.queue != [] {
      SingleIsApart(s);
      StartTold(s, t, inputs);
      StartNextSingle(s);
      assert Fed(StartNext(s), t, inputs) by {
        if s.queue[|s.queue| - 1].hash == t.hash {
          assert Queued(s, t.hash);
        }
      }
      RefillFed(StartNext(s), budget - 1, t, inputs);
    }
  }

  lemma {:induction false} ConsumeFed(s: State, pending: nat, t: Task, inputs: seq<Input>)
    requires ToldOnce(s, t, inputs) && Fed(s, t, inputs)
    ensures Fed(ConsumePending(s, pending), t, inputs)
  {
    var s' := Sampled(s, pending);
    forall h ensures Occurrences(s', h) <= 1 {
      assert Occurrences(s, h) <= 1;
    }
    assert Queued(s', t.hash) <==> Queued(s, t.hash);
    RefillFed(s', Budget(s, pending), t, inputs);
  }

  lemma {:induction false} ReturnedFed(s: State, i: nat, es: seq<Event>, ok: bool, t: Task, inputs: seq<Input>,
                                       input: Input)
    requires Valid(s) && Apart(s) && i < |s.live| && Fed(s, t, inputs)
    requires s.live[i].task.hash == t.hash ==> inputs + [input] == AllInputs(t)
    ensures Fed(Returned(s, i, es, ok), t, if s.live[i].task.hash == t.hash then inputs + [input] else inputs)
  {
    var s' := Returned(s, i, es, ok);
    if s.live[i].task.hash == t.hash {
      assert forall j :: 0 <= j < |s'.live| ==> s'.live[j].task.hash != t.hash;
    } else {
      assert t.hash in s'.done ==> t.hash in s.done;
      assert t.hash in s'.errors ==> t.hash in s.errors;
    }
  }

  lemma {:induction false} ApplyFed(s: State, i: nat, input: Input, pending: nat, t: Task, inputs: seq<Input>)
    requires ToldOnce(s, t, inputs) && Fed(s, t, inputs) && s.phase.Running? && i < |s.live|
    requires match React(s.live[i], s.monitored, input)
             case Ignored => false
             case Continues(_, next) =>
               InputsSoFar(s.live[i]) + [input] == InputsSoFar(Worker(s.live[i].task, next))
             case Returns(_, _) => InputsSoFar(s.live[i]) + [input] == AllInputs(s.live[i].task)
    ensures Fed(Step(s, Work(i, input, pending)), t, inputs + Heard(s, Work(i, input, pending), t.hash))
  {
    var l := Work(i, input, pending);
    SingleIsApart(s);
    assert inputs + [] == inputs;
    match React(s.live[i], s.monitored, input)
    case Continues(_, next) =>
    case Returns(es, ok) =>
      ReturnedFed(s, i, es, ok, t, inputs, input);
      ReactTells(s.live[i], s.monitored, input);
      ReturnedTold(s, i, es, ok, t, inputs, input);
      ReturnedSingle(s, i, es, ok);
      ConsumeFed(Returned(s, i, es, ok), pending, t, inputs + Heard(s, l, t.hash));
  }

  lemma {:induction false} PollFed(txs: seq<Task>, fs: FakeState, i: nat, t: Task, inputs: seq<Input>)
    requires Sound(txs, fs) && ToldOnce(fs.runner, t, inputs) && Fed(fs.runner, t, inputs)
    requires fs.runner.phase.Running? && i < |fs.runner.live| && Answer(fs.runner.live[i]).Some?
    ensures Fed(FakeStep(fs, Poll(i)).runner, t, inputs + Heard(fs.runner, Concrete(fs, Poll(i)), t.hash))
  {
    var w := fs.runner.live[i];
    AnswerFollowsScript(fs.pool, w);
    ApplyFed(fs.runner, i, Answer(w).value, |PoolAfter(fs.pool, w)|, t, inputs);
  }

  lemma {:induction false} SameFed(s: State, s': State, t: Task, inputs: seq<Input>)
    requires Fed(s, t, inputs) && s'.live == s.live && s'.done == s.done && s'.errors == s.errors
    ensures Fed(s', t, inputs + [])
  {
    assert inputs + [] == inputs;
  }

  lemma {:induction false} FakeStepFed(txs: seq<Task>, fs: FakeState, l: FakeLabel, t: Task, inputs: seq<Input>)
    requires Sound(txs, fs) && ToldOnce(fs.runner, t, inputs) && Fed(fs.runner, t, inputs)
    ensures Fed(FakeStep(fs, l).runner, t, inputs + Heard(fs.runner, Concrete(fs, l), t.hash))
  {
    var s := fs.runner;
    if s.phase.Running? && l.Timer? {
      assert inputs + [] == inputs;
      ConsumeFed(s, |fs.pool|, t, inputs);
    } else if s.phase.Running? && l.Poll? && l.i < |s.live| && Answer(s.live[l.i]).Some? {
      PollFed(txs, fs, l.i, t, inputs);
    } else {
      assert Heard(s, Concrete(fs, l), t.hash) == [];
      SameFed(s, Step(s, Concrete(fs, l)), t, inputs);
    }
  }

  lemma {:induction false} FakeExecFed(txs: seq<Task>, fs: FakeState, ls: seq<FakeLabel>, t: Task, inputs: seq<Input>)
    returns (all: seq<Input>)
    requires Distinct(Hashes(txs)) && Sound(txs, fs) && ToldOnce(fs.runner, t, inputs) && Fed(fs.runner, t, inputs)
    ensures ToldOnce(FakeExec(fs, ls).runner, t, all) && Fed(FakeExec(fs, ls).runner, t, all)
    decreases |ls|
  {
    if ls == [] {
      all := inputs;
    } else {
      var l := Concrete(fs, ls[0]);
      FakeStepFed(txs, fs, ls[0], t, inputs);
      StepToldOnce(fs.runner, l, t, inputs);
      FakeStepSound(txs, fs, ls[0]);
      all := FakeExecFed(txs, FakeStep(fs, ls[0]), ls[1..], t, inputs + Heard(fs.runner, l, t.hash));
    }
  }

  // ---- From answers to logs and results ----

  lemma {:induction false} StatusesTranscript(watched: bool, head: seq<Input>, statuses: seq<TransactionStatus>)
    ensures Transcript(watched, head + Statuses(statuses)) == Transcript(watched, head) + PoolEvents(statuses)
  {
    if statuses == [] {
      assert head + Statuses(statuses) == head;
    } else {
      var before, x := statuses[..|statuses| - 1], statuses[|statuses| - 1];
      assert statuses == before + [x];
      StatusesTranscript(watched, head, before);
      StatusesSnoc(head, before, x);
      TranscriptSnoc(watched, head + Statuses(before), StreamItem(Some(x)));
      AppendLast(Transcript(watched, head), PoolEvents(before), TxPoolEvent(x));
    }
  }

  lemma {:induction false} AppendLast(es: seq<Event>, fs: seq<Event>, e: Event)
    ensures (es + fs) + [e] == es + (fs + [e])
  {
  }

  lemma {:induction false} HeadTranscript(watched: bool, r: Outcome<Error>)
    ensures Transcript(watched, []) == []
    ensures Transcript(watched, [FirstPoll]) == [Sent]
    ensures Transcript(watched, [FirstPoll, SubmitReply(r)])
         == [Sent, if watched then SubmitAndWatchResult(r) else SubmitResult(r)]
  {
    TranscriptSnoc(watched, [], FirstPoll);
    assert [] + [FirstPoll] == [FirstPoll];
    TranscriptSnoc(watched, [FirstPoll], SubmitReply(r));
    assert [FirstPoll] + [SubmitReply(r)] == [FirstPoll, SubmitReply(r)];
  }

  lemma {:induction false} WatchedSoFar(statuses: seq<TransactionStatus>)
    ensures [Popped] + Transcript(true, [FirstPoll, SubmitReply(Pass)] + Statuses(statuses))
         == WATCHED_HEAD + PoolEvents(statuses)
  {
    HeadTranscript(true, Pass);
    StatusesTranscript(true, [FirstPoll, SubmitReply(Pass)], statuses);
    var es := PoolEvents(statuses);
    assert [Popped] + ([Sent, SubmitAndWatchResult(Pass)] + es) == WATCHED_HEAD + es;
  }

  lemma {:induction false} LiveTranscript(pool: set<Hash>, w: Worker)
    requires WorkerFits(pool, w)
    ensures [Popped] + Transcript(w.task.watched, InputsSoFar(w)) == LogSoFar(w)
  {
    if w.stage.Streaming? {
      WatchedSoFar(w.task.script[..w.stage.seen]);
    } else {
      HeadTranscript(w.task.watched, Pass);
    }
  }

  /** All of a task's answers make its final log, and they settle on success exactly if the script does. */
  lemma {:induction false} FinalTranscript(t: Task)
    requires !Broken(t)
    ensures [Popped] + Transcript(t.watched, AllInputs(t)) == FinalLog(t)
    ensures Verdict(t.watched, false, AllInputs(t)) == Some(Succeeds(t))
  {
    if t.watched {
      WatchedTranscript(t);
      WatchedVerdict(t);
    } else {
      HeadTranscript(false, ScriptedResult(t.script).value);
      ScriptedResultMeans(t.script);
    }
  }

  lemma {:induction false} WatchedTranscript(t: Task)
    requires t.watched
    ensures [Popped] + Transcript(true, AllInputs(t)) == FinalLog(t)
  {
    var inputs := [FirstPoll, SubmitReply(Pass)] + Statuses(Played(t.script));
    WatchedSoFar(Played(t.script));
    if NoTerminal(t.script) {
      TranscriptSnoc(true, inputs, StreamItem(None));
      assert Transcript(true, inputs) + [] == Transcript(true, inputs);
    } else {
      assert inputs + [] == inputs;
    }
  }

  lemma {:induction false} WatchedVerdict(t: Task)
    requires t.watched
    ensures Verdict(true, false, AllInputs(t)) == Some(Succeeds(t))
  {
    var played := Played(t.script);
    var n := |AllInputs(t)| - 1;
    if NoTerminal(t.script) {
      PlayedAll(t.script);
      assert AllInputs(t)[n] == StreamItem(None);
    } else {
      PlayedEnds(t.script);
      assert AllInputs(t)[n] == StreamItem(Some(played[|played| - 1]));
    }
  }

  lemma {:induction false} PlayedEnds(script: seq<TransactionStatus>)
    requires !NoTerminal(script)
    ensures Played(script) != [] && Played(script)[|Played(script)| - 1].IsTerminal()
  {
    var i :| 0 <= i < |script| && script[i].IsTerminal();
  }

  // ---- Over whole runs ----

  /** The logs of a state are what the scripts make them. */
  ghost predicate Scripted(txs: seq<Task>, s: State, k: nat)
    requires k < |txs|
  {
    var t := txs[k];
    && t.hash in s.logs
    && (k < |s.queue| ==> s.logs[t.hash] == [])
    && (forall i :: 0 <= i < |s.live| && s.live[i].task.hash == t.hash ==>
          s.live[i].task == t && s.logs[t.hash] == LogSoFar(s.live[i]))
    && (t.hash in s.done || t.hash in s.errors ==> s.logs[t.hash] == FinalLog(t))
    && (t.hash in s.done ==> Succeeds(t))
    && (t.hash in s.errors ==> !Succeeds(t))
  }

  lemma {:induction false} FedIsScripted(txs: seq<Task>, fs: FakeState, k: nat, inputs: seq<Input>)
    requires k < |txs| && Sound(txs, fs) && Told(fs.runner, txs[k], inputs) && Fed(fs.runner, txs[k], inputs)
    ensures Scripted(txs, fs.runner, k)
  {
    var s, t := fs.runner, txs[k];
    SingleIsApart(s);
    if k < |s.queue| {
      assert s.queue[k].hash == t.hash;
    }
    forall i | 0 <= i < |s.live| && s.live[i].task.hash == t.hash ensures s.logs[t.hash] == LogSoFar(s.live[i]) {
      assert !Queued(s, t.hash);
      LiveTranscript(fs.pool, s.live[i]);
    }
    if t.hash in s.done || t.hash in s.errors {
      assert !Queued(s, t.hash);
      FinalTranscript(t);
    }
  }

  /**
   * In every reachable state of every run against the fake sink over distinct hashes: the log of a
   * watched task holds its script as far as it was played, which is up to the first terminal status
   * once the task has finished; the log of a plain submission holds the scripted result; and a
   * finished task is done exactly if the status that decides is `Finalized`, whatever the schedule.
   */
  lemma {:induction false} FakeRunScripted(threshold: nat, txs: seq<Task>, ls: seq<FakeLabel>, k: nat)
    requires Distinct(Hashes(txs)) && k < |txs|
    ensures Scripted(txs, FakeRun(threshold, txs, ls).runner, k)
  {
    var fs := FakeBegin(threshold, txs);
    FakeBeginSound(threshold, txs);
    BeginTold(threshold, false, txs, k);
    BeginFed(threshold, txs, k);
    var all := FakeExecFed(txs, fs, ls, txs[k], []);
    FakeExecSound(txs, fs, ls);
    FedIsScripted(txs, FakeExec(fs, ls), k, all);
  }

  lemma {:induction false} BeginFed(threshold: nat, txs: seq<Task>, k: nat)
    requires Distinct(Hashes(txs)) && k < |txs|
    ensures Fed(Begin(threshold, false, txs), txs[k], [])
  {
    var s := New(threshold, false, txs);
    NewTold(threshold, false, txs, k);
    RefillFed(s, threshold, txs[k], []);
  }

  /** A drained run has recorded every transaction under the result its script decides. */
  lemma {:induction false} FakeRunResults(threshold: nat, txs: seq<Task>, ls: seq<FakeLabel>)
    requires Distinct(Hashes(txs)) && |txs| <= USIZE_MAX && Uninterrupted(ls)
    requires Drainable(threshold, txs) && !FakeRun(threshold, txs, ls).runner.phase.Running?
    ensures var s := FakeRun(threshold, txs, ls).runner;
            && s.phase == AllFuturesDone && s.queue == [] && s.live == []
            && multiset(s.done) + multiset(s.errors) == multiset(Hashes(txs))
            && forall k :: 0 <= k < |txs| ==>
                 && (txs[k].hash in s.done <==> Succeeds(txs[k]))
                 && (txs[k].hash in s.errors <==> !Succeeds(txs[k]))
                 && txs[k].hash in s.logs && s.logs[txs[k].hash] == FinalLog(txs[k])
  {
    var s := FakeRun(threshold, txs, ls).runner;
    FakeRunCompletes(threshold, txs, ls);
    forall k | 0 <= k < |txs|
      ensures (txs[k].hash in s.done || txs[k].hash in s.errors) && Scripted(txs, s, k)
    {
      assert Hashes(txs)[k] == txs[k].hash;
      assert txs[k].hash in multiset(Hashes(txs));
      assert txs[k].hash in multiset(s.done) + multiset(s.errors);
      FakeRunScripted(threshold, txs, ls, k);
    }
  }
}
