/** The per-transaction event logs and the counters they share (src/execution_log.rs). */
module ExecutionLog {
  import opened Wrappers
  import opened Transactions

  datatype Event =
    | Popped
    | Sent
    | Resubmitted
    | SubmitResult(result: Outcome<Error>)
    | SubmitAndWatchResult(result: Outcome<Error>)
    | TxPoolEvent(status: TransactionStatus)
    | FinalizedMonitor(block: Hash)
    | MortalDroppedMonitor(number: nat)

  /** One name for each atomic counter. */
  datatype Kind =
    | CPopped
    | CSent
    | CSubmitSuccess
    | CSubmitError
    | CWatchSuccess
    | CWatchError
    | CFinalizedMonitor
    | CMortalDroppedMonitor
    | CValidated
    | CBroadcasted
    | CInBlock
    | CFinalized
    | CDropped
    | CInvalid
    | CErrored

  /** The counter an event is booked under, if any. */
  function KindOf(e: Event): Option<Kind> {
    match e
    case Popped => Some(CPopped)
    case Sent => Some(CSent)
    case Resubmitted => None
    case SubmitResult(r) => Some(if r.Pass? then CSubmitSuccess else CSubmitError)
    case SubmitAndWatchResult(r) => Some(if r.Pass? then CWatchSuccess else CWatchError)
    case FinalizedMonitor(_) => Some(CFinalizedMonitor)
    case MortalDroppedMonitor(_) => Some(CMortalDroppedMonitor)
    case TxPoolEvent(status) =>
      match status
      case Validated => Some(CValidated)
      case Broadcasted => Some(CBroadcasted)
      case InBlock(_) => Some(CInBlock)
      case NoLongerInBestBlock => None
      case Finalized(_) => Some(CFinalized)
      case Dropped(_) => Some(CDropped)
      case Invalid(_) => Some(CInvalid)
      case Errored(_) => Some(CErrored)
  }

  /** What each counter is for: the events that belong to it, one kind of event for each. */
  predicate Belongs(k: Kind, e: Event) {
    match k
    case CPopped => e.Popped?
    case CSent => e.Sent?
    case CSubmitSuccess => e.SubmitResult? && e.result.Pass?
    case CSubmitError => e.SubmitResult? && e.result.Fail?
    case CWatchSuccess => e.SubmitAndWatchResult? && e.result.Pass?
    case CWatchError => e.SubmitAndWatchResult? && e.result.Fail?
    case CFinalizedMonitor => e.FinalizedMonitor?
    case CMortalDroppedMonitor => e.MortalDroppedMonitor?
    case CValidated => e.TxPoolEvent? && e.status.Validated?
    case CBroadcasted => e.TxPoolEvent? && e.status.Broadcasted?
    case CInBlock => e.TxPoolEvent? && e.status.InBlock?
    case CFinalized => e.TxPoolEvent? && e.status.Finalized?
    case CDropped => e.TxPoolEvent? && e.status.Dropped?
    case CInvalid => e.TxPoolEvent? && e.status.Invalid?
    case CErrored => e.TxPoolEvent? && e.status.Errored?
  }

  /** An event is booked under the counter it belongs to, and nowhere if it belongs to none. */
  lemma {:induction false} BookedWhereItBelongs(k: Kind, e: Event)
    ensures KindOf(e) == Some(k) <==> Belongs(k, e)
  {
  }

  predicate IsInBlock(e: Event) {
    e.TxPoolEvent? && e.status.InBlock?
  }

  /** The hashes of the blocks that included the transaction, in log order. */
  function InBlocks(events: seq<Event>): seq<Hash> {
    if events == [] then []
    else
      var n := |events| - 1;
      InBlocks(events[..n]) + (if IsInBlock(events[n]) then [events[n].status.block] else [])
  }

  /** The one-letter summary of a transaction's pool events. */
  function InpoolEventsString(events: seq<Event>): string {
    if events == [] then ""
    else
      (if events[0].TxPoolEvent? then [events[0].status.GetLetter()] else "")
      + InpoolEventsString(events[1..])
  }

  // ---- Counters as values: the multiplicity of a kind is the value of its atomic ----

  type Tally = multiset<Kind>

  /** What one push does to the shared tally: repeated in-block events of a log are not booked. */
  function Booked(tally: Tally, log: seq<Event>, e: Event): Tally {
    if KindOf(e).None? || (IsInBlock(e) && InBlocks(log) != []) then tally
    else tally + multiset{KindOf(e).value}
  }

  const USIZE_MAX: nat := 0xFFFF_FFFF_FFFF_FFFF

  /** Subtraction of machine words, wrapping like the release build. */
  function WrappingSub(a: nat, b: nat): nat {
    (a - b) % (USIZE_MAX + 1)
  }

  /** Tasks popped but not yet answered, computed from five counters by two machine subtractions. */
  function Buffered(tally: Tally): nat {
    WrappingSub(
      WrappingSub(tally[CPopped], tally[CWatchSuccess] + tally[CWatchError]),
      tally[CSubmitSuccess] + tally[CSubmitError])
  }

  // ---- Recounting all logs from scratch ----

  /** The events of a log that belong to a counter. */
  function Matching(log: seq<Event>, k: Kind): nat {
    if log == [] then 0
    else
      var n := |log| - 1;
      Matching(log[..n], k) + (if Belongs(k, log[n]) then 1 else 0)
  }

  /** One log's contribution: its matching events, or for in-block events whether there is any. */
  function Contribution(log: seq<Event>, k: Kind): nat {
    if k == CInBlock then (if InBlocks(log) == [] then 0 else 1) else Matching(log, k)
  }

  /** The sum of the contributions of the logs of `hs`. */
  ghost function Recount(logs: map<Hash, seq<Event>>, hs: set<Hash>, k: Kind): nat
    requires hs <= logs.Keys
  {
    if hs == {} then 0
    else
      var h :| h in hs;
      Contribution(logs[h], k) + Recount(logs, hs - {h}, k)
  }

  /** The tally agrees with a recount of every log. */
  ghost predicate TallyExact(logs: map<Hash, seq<Event>>, tally: Tally) {
    forall k :: tally[k] == Recount(logs, logs.Keys, k)
  }

  lemma {:induction false} MatchingAppend(log: seq<Event>, e: Event, k: Kind)
    ensures Matching(log + [e], k) == Matching(log, k) + (if Belongs(k, e) then 1 else 0)
  {
    assert (log + [e])[..|log|] == log;
  }

  lemma {:induction false} RecountPick(logs: map<Hash, seq<Event>>, hs: set<Hash>, h: Hash, k: Kind)
    requires hs <= logs.Keys && h in hs
    ensures Recount(logs, hs, k) == Contribution(logs[h], k) + Recount(logs, hs - {h}, k)
    decreases hs
  {
    var g :| g in hs && Recount(logs, hs, k) == Contribution(logs[g], k) + Recount(logs, hs - {g}, k);
    if g != h {
      RecountPick(logs, hs - {g}, h, k);
      RecountPick(logs, hs - {h}, g, k);
      assert hs - {g} - {h} == hs - {h} - {g};
    }
  }

  /** Logs outside `hs` do not matter. */
  lemma {:induction false} RecountFrame(
    logs: map<Hash, seq<Event>>, logs': map<Hash, seq<Event>>, hs: set<Hash>, k: Kind)
    requires hs <= logs.Keys && hs <= logs'.Keys
    requires forall h :: h in hs ==> logs[h] == logs'[h]
    ensures Recount(logs, hs, k) == Recount(logs', hs, k)
  {
    if hs != {} {
      var h :| h in hs;
      RecountPick(logs, hs, h, k);
      RecountPick(logs', hs, h, k);
      RecountFrame(logs, logs', hs - {h}, k);
    }
  }

  lemma {:induction false} RecountEmpty(logs: map<Hash, seq<Event>>, hs: set<Hash>, k: Kind)
    requires hs <= logs.Keys && forall h :: h in hs ==> logs[h] == []
    ensures Recount(logs, hs, k) == 0
  {
    if hs != {} {
      var h :| h in hs;
      RecountPick(logs, hs, h, k);
      RecountEmpty(logs, hs - {h}, k);
    }
  }

  lemma {:induction false} InBlocksAppend(log: seq<Event>, e: Event)
    ensures InBlocks(log + [e]) == InBlocks(log) + (if IsInBlock(e) then [e.status.block] else [])
  {
    assert (log + [e])[..|log|] == log;
  }

  /** What a push books is by how much its log's contribution grows. */
  lemma {:induction false} ContributionGrows(tally: Tally, log: seq<Event>, e: Event, k: Kind)
    ensures Contribution(log + [e], k) - Contribution(log, k) == Booked(tally, log, e)[k] - tally[k]
  {
    BookedWhereItBelongs(k, e);
    if k == CInBlock {
      InBlocksAppend(log, e);
    } else {
      MatchingAppend(log, e, k);
    }
  }

  /** One push keeps the incrementally maintained tally equal to the recount. */
  lemma {:induction false} PushKeepsTallyExact(logs: map<Hash, seq<Event>>, tally: Tally, h: Hash, e: Event)
    requires h in logs && TallyExact(logs, tally)
    ensures TallyExact(logs[h := logs[h] + [e]], Booked(tally, logs[h], e))
  {
    var logs' := logs[h := logs[h] + [e]];
    var tally' := Booked(tally, logs[h], e);
    assert logs'.Keys == logs.Keys;
    forall k ensures tally'[k] == Recount(logs', logs'.Keys, k) {
      ContributionGrows(tally, logs[h], e, k);
      RecountPick(logs, logs.Keys, h, k);
      RecountPick(logs', logs.Keys, h, k);
      RecountFrame(logs, logs', logs.Keys - {h}, k);
    }
  }

  // ---- The mutable objects ----

  /** The shared atomics, one for each kind: the multiplicity of a kind is the value of its atomic. */
  class Counters {
    var tally: Tally

    constructor ()
      ensures tally == multiset{}
    {
      tally := multiset{};
    }

    method GetBuffered() returns (n: nat)
      ensures n == Buffered(tally)
    {
      var answered := tally[CWatchSuccess] + tally[CWatchError];
      n := WrappingSub(
        WrappingSub(tally[CPopped], answered), tally[CSubmitSuccess] + tally[CSubmitError]);
    }

    method Inc(k: Kind)
      modifies this
      ensures tally == old(tally) + multiset{k}
    {
      tally := tally[k := tally[k] + 1];
    }

    method CountEvent(e: Event)
      modifies this
      ensures tally == old(tally) + (if KindOf(e).Some? then multiset{KindOf(e).value} else multiset{})
      ensures forall k :: tally[k] == old(tally)[k] + (if Belongs(k, e) then 1 else 0)
    {
      forall k ensures KindOf(e) == Some(k) <==> Belongs(k, e) {
        BookedWhereItBelongs(k, e);
      }
      match KindOf(e)
      case Some(k) => Inc(k);
      case None =>
    }
  }

  /** The log of one transaction. */
  class TransactionExecutionLog {
    var events: seq<Event>
    const hash: Hash
    const nonce: nat
    const account: AccountMetadata
    const totalCounters: Counters

    constructor (task: Task, counters: Counters)
      ensures events == [] && hash == task.hash && nonce == task.nonce && account == task.account
      ensures totalCounters == counters
    {
      events := [];
      hash, nonce, account := task.hash, task.nonce, task.account;
      totalCounters := counters;
    }

    method PushEvent(e: Event)
      modifies this`events, totalCounters
      ensures events == old(events) + [e]
      ensures totalCounters.tally == Booked(old(totalCounters.tally), old(events), e)
    {
      var counted := !IsInBlock(e) || InBlocks(events) == [];
      if counted {
        totalCounters.CountEvent(e);
      }
      events := events + [e];
    }
  }
}
