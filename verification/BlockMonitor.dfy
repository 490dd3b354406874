/**
 * The block monitor (src/block_monitor.rs): a map from transaction hashes to listeners and an index
 * from deadlines to hashes, which together stand for a flat list of listeners that is scanned once
 * per finalized block.
 */
module BlockMonitor {
  import opened Wrappers
  import opened Transactions

  /** One oneshot channel per registration. */
  type Listener = nat

  type Reply = Result<Hash, Error>

  datatype Block = Block(number: nat, hash: Hash, extrinsics: seq<Hash>)

  function Elems<T>(xs: seq<T>): set<T> {
    set x | x in xs
  }

  // ---- The monitor's state and what its three select branches do to it ----

  /** `replies` are the messages sent, `dropped` the triggers that were overwritten. */
  datatype Monitor = Monitor(
    callbacks: map<Hash, Listener>,
    mortal: map<nat, set<Hash>>,
    replies: set<(Listener, Reply)>,
    dropped: set<Listener>)

  const IDLE := Monitor(map[], map[], {}, {})

  /** The messages sent when the callbacks of `hs` are taken out with reply `r`. */
  function Sends(callbacks: map<Hash, Listener>, hs: set<Hash>, r: Reply): set<(Listener, Reply)> {
    set h | h in hs && h in callbacks :: (callbacks[h], r)
  }

  function Notify(m: Monitor, hs: set<Hash>, r: Reply): Monitor {
    m.(callbacks := m.callbacks - hs, replies := m.replies + Sends(m.callbacks, hs, r))
  }

  function Bucket(mortal: map<nat, set<Hash>>, n: nat): set<Hash> {
    if n in mortal then mortal[n] else {}
  }

  function Handled(m: Monitor, b: Block, finalized: bool): Monitor {
    if !finalized then m
    else
      var found := Notify(m, Elems(b.extrinsics), Success(b.hash));
      Notify(found, Bucket(m.mortal, b.number), Failure(MortalLifetimeSurpassed(b.number)))
      .(mortal := m.mortal - {b.number})
  }

  function Register(m: Monitor, h: Hash, until: Option<nat>, l: Listener): Monitor {
    m.(callbacks := m.callbacks[h := l],
       dropped := if h in m.callbacks then m.dropped + {m.callbacks[h]} else m.dropped,
       mortal := if until.Some? then m.mortal[until.value := Bucket(m.mortal, until.value) + {h}] else m.mortal)
  }

  datatype Op =
    | Registration(hash: Hash, until: Option<nat>, listener: Listener)
    | Finalization(block: Block)
    | BestBlock(block: Block)

  function MonitorStep(m: Monitor, op: Op): Monitor {
    match op
    case Registration(h, until, l) => Register(m, h, until, l)
    case Finalization(b) => Handled(m, b, true)
    case BestBlock(b) => Handled(m, b, false)
  }

  function MonitorExec(m: Monitor, ops: seq<Op>): Monitor
    decreases |ops|
  {
    if ops == [] then m else MonitorExec(MonitorStep(m, ops[0]), ops[1..])
  }

  // ---- The monitor object ----

  class BlockMonitor {
    var callbacks: map<Hash, Listener>
    var mortalAccounting: map<nat, set<Hash>>
    var replies: set<(Listener, Reply)>
    ghost var dropped: set<Listener>

    ghost function View(): Monitor
      reads this
    {
      Monitor(callbacks, mortalAccounting, replies, dropped)
    }

    constructor ()
      ensures View() == IDLE
    {
      callbacks, mortalAccounting, replies, dropped := map[], map[], {}, {};
    }

    method RegisterListener(h: Hash, validUntil: Option<nat>, trigger: Listener)
      modifies this
      ensures View() == Register(old(View()), h, validUntil, trigger)
    {
      if h in callbacks {
        dropped := dropped + {callbacks[h]};
      }
      callbacks := callbacks[h := trigger];
      if validUntil.Some? {
        var till := validUntil.value;
        if till !in mortalAccounting {
          mortalAccounting := mortalAccounting[till := {}];
        }
        mortalAccounting := mortalAccounting[till := mortalAccounting[till] + {h}];
      }
    }

    /** Takes the callback of `h` out, if there is one, and sends it `r`. */
    method Trigger(h: Hash, r: Reply)
      modifies this`callbacks, this`replies
      ensures View() == Notify(old(View()), {h}, r)
    {
      if h in callbacks {
        replies := replies + {(callbacks[h], r)};
        callbacks := callbacks - {h};
      }
    }

    method HandleBlock(b: Block, finalized: bool)
      modifies this
      ensures View() == Handled(old(View()), b, finalized)
    {
      if !finalized {
        return;
      }
      ghost var start := View();
      var i := 0;
      while i < |b.extrinsics|
        invariant 0 <= i <= |b.extrinsics|
        invariant View() == Notify(start, Elems(b.extrinsics[..i]), Success(b.hash))
      {
        NotifyTwice(start, Elems(b.extrinsics[..i]), {b.extrinsics[i]}, Success(b.hash));
        assert Elems(b.extrinsics[..i + 1]) == Elems(b.extrinsics[..i]) + {b.extrinsics[i]};
        Trigger(b.extrinsics[i], Success(b.hash));
        i := i + 1;
      }
      assert b.extrinsics[..i] == b.extrinsics;
      if b.number in mortalAccounting {
        var txs := mortalAccounting[b.number];
        mortalAccounting := mortalAccounting - {b.number};
        Expire(txs, b.number);
      } else {
        assert start.mortal - {b.number} == start.mortal;
        assert Notify(View(), {}, Failure(MortalLifetimeSurpassed(b.number))) == View();
      }
    }

    /** Ends the lifetime of the transactions of one deadline, in whatever order the set yields them. */
    method Expire(bucket: set<Hash>, n: nat)
      modifies this`callbacks, this`replies
      ensures View() == Notify(old(View()), bucket, Failure(MortalLifetimeSurpassed(n)))
    {
      var r := Failure(MortalLifetimeSurpassed(n));
      ghost var start := View();
      var txs := bucket;
      while txs != {}
        invariant txs <= bucket
        invariant View() == Notify(start, bucket - txs, r)
        decreases txs
      {
        var tx :| tx in txs;
        NotifyTwice(start, bucket - txs, {tx}, r);
        Trigger(tx, r);
        assert bucket - (txs - {tx}) == bucket - txs + {tx};
        txs := txs - {tx};
      }
      assert bucket - txs == bucket;
    }
  }

  lemma {:induction false} NotifyTwice(m: Monitor, hs: set<Hash>, gs: set<Hash>, r: Reply)
    ensures Notify(Notify(m, hs, r), gs, r) == Notify(m, hs + gs, r)
  {
    var m' := Notify(m, hs, r);
    assert m'.callbacks - gs == m.callbacks - (hs + gs);
    assert Sends(m.callbacks, hs, r) + Sends(m'.callbacks, gs, r) == Sends(m.callbacks, hs + gs, r);
    assert m.replies + Sends(m.callbacks, hs, r) + Sends(m'.callbacks, gs, r)
        == m.replies + Sends(m.callbacks, hs + gs, r);
  }

  // ---- The flat list ----

  datatype Entry = Entry(hash: Hash, deadline: Option<nat>, listener: Listener)

  datatype Flat = Flat(entries: set<Entry>, replies: set<(Listener, Reply)>)

  /** What a finalized block means for one listener; inclusion is looked at before the deadline. */
  function Verdict(e: Entry, b: Block): Option<Reply> {
    if e.hash in b.extrinsics then Some(Success(b.hash))
    else if e.deadline == Some(b.number) then Some(Failure(MortalLifetimeSurpassed(b.number)))
    else None
  }

  /** A full scan of the list. */
  function Scan(f: Flat, b: Block): Flat {
    Flat(
      (set e | e in f.entries && Verdict(e, b).None?),
      f.replies + (set e | e in f.entries && Verdict(e, b).Some? :: (e.listener, Verdict(e, b).value)))
  }

  function FlatStep(f: Flat, op: Op): Flat {
    match op
    case Registration(h, until, l) => f.(entries := f.entries + {Entry(h, until, l)})
    case Finalization(b) => Scan(f, b)
    case BestBlock(_) => f
  }

  function FlatExec(f: Flat, ops: seq<Op>): Flat
    decreases |ops|
  {
    if ops == [] then f else FlatExec(FlatStep(f, ops[0]), ops[1..])
  }

  const NO_ENTRIES := Flat({}, {})

  // ---- Refinement ----

  /** A channel that has not been used before. */
  ghost predicate FreshListener(f: Flat, l: Listener) {
    (forall e :: e in f.entries ==> e.listener != l) && (forall r :: (l, r) !in f.replies)
  }

  /** Pending listeners are distinct and have had no reply. */
  ghost predicate OwnChannels(f: Flat) {
    && (forall e, g :: e in f.entries && g in f.entries && e.listener == g.listener ==> e == g)
    && (forall e, r :: e in f.entries ==> (e.listener, r) !in f.replies)
  }

  /** Moreover, they wait for distinct hashes. */
  ghost predicate WellKept(f: Flat) {
    && OwnChannels(f)
    && (forall e, g :: e in f.entries && g in f.entries && e.hash == g.hash ==> e == g)
  }

  ghost predicate Pending(f: Flat, h: Hash) {
    exists e :: e in f.entries && e.hash == h
  }

  ghost predicate SameCallbacks(m: Monitor, f: Flat) {
    && (forall e :: e in f.entries ==> e.hash in m.callbacks && m.callbacks[e.hash] == e.listener)
    && (forall h {:trigger Pending(f, h)} :: h in m.callbacks ==> Pending(f, h))
  }

  /** Every pending deadline is indexed; what else the index holds is stale. */
  ghost predicate SameDeadlines(m: Monitor, f: Flat) {
    && (forall e :: e in f.entries && e.deadline.Some? ==> e.hash in Bucket(m.mortal, e.deadline.value))
    && (forall e, d: nat :: e in f.entries && e.hash in Bucket(m.mortal, d) ==> e.deadline == Some(d))
  }

  ghost predicate Refines(m: Monitor, f: Flat) {
    && WellKept(f) && SameCallbacks(m, f) && SameDeadlines(m, f)
    && m.replies == f.replies && m.dropped == {}
  }

  /** The hash is not pending, and the index knows it at most under the deadline now given. */
  ghost predicate Clean(m: Monitor, h: Hash, until: Option<nat>) {
    h !in m.callbacks && forall d: nat :: h in Bucket(m.mortal, d) ==> until == Some(d)
  }

  lemma {:induction false} RegisterKeepsDeadlines(m: Monitor, f: Flat, h: Hash, until: Option<nat>, l: Listener)
    requires Refines(m, f) && Clean(m, h, until)
    ensures SameDeadlines(Register(m, h, until, l), FlatStep(f, Registration(h, until, l)))
  {
    var m', f' := Register(m, h, until, l), FlatStep(f, Registration(h, until, l));
    forall e, d: nat | e in f'.entries && e.hash in Bucket(m'.mortal, d) ensures e.deadline == Some(d) {
      if e in f.entries {
        assert e.hash in m.callbacks;
        assert e.hash in Bucket(m.mortal, d);
      } else if until != Some(d) {
        assert h !in Bucket(m.mortal, d);
      }
    }
  }

  lemma {:induction false} RegisterRefines(m: Monitor, f: Flat, h: Hash, until: Option<nat>, l: Listener)
    requires Refines(m, f) && Clean(m, h, until) && FreshListener(f, l)
    ensures Refines(Register(m, h, until, l), FlatStep(f, Registration(h, until, l)))
  {
    var m', f' := Register(m, h, until, l), FlatStep(f, Registration(h, until, l));
    RegisterKeepsDeadlines(m, f, h, until, l);
    forall g | g in m'.callbacks ensures Pending(f', g) {
      if g == h {
        assert Entry(h, until, l) in f'.entries;
      } else {
        assert Pending(f, g);
        var e :| e in f.entries && e.hash == g;
        assert e in f'.entries;
      }
    }
  }

  /** A finalized block is answered like a full scan. */
  lemma {:induction false} BlockReplies(m: Monitor, f: Flat, b: Block)
    requires Refines(m, f)
    ensures Handled(m, b, true).replies == Scan(f, b).replies
  {
    var found := Notify(m, Elems(b.extrinsics), Success(b.hash));
    var m', f' := Handled(m, b, true), Scan(f, b);
    var expiry := Failure(MortalLifetimeSurpassed(b.number));
    forall x | x in m'.replies ensures x in f'.replies {
      if x !in m.replies {
        var h :| h in m.callbacks && x.0 == m.callbacks[h]
              && ((h in b.extrinsics && x.1 == Success(b.hash))
                  || (h !in b.extrinsics && h in Bucket(m.mortal, b.number) && x.1 == expiry));
        assert Pending(f, h);
        var e :| e in f.entries && e.hash == h;
        assert Verdict(e, b) == Some(x.1);
      }
    }
    forall x | x in f'.replies ensures x in m'.replies {
      if x !in f.replies {
        var e :| e in f.entries && Verdict(e, b).Some? && x == (e.listener, Verdict(e, b).value);
        if e.hash in b.extrinsics {
          assert x in Sends(m.callbacks, Elems(b.extrinsics), Success(b.hash));
        } else {
          assert e.hash in found.callbacks;
          assert x in Sends(found.callbacks, Bucket(m.mortal, b.number), expiry);
        }
      }
    }
  }

  lemma {:induction false} BlockKeepsCallbacks(m: Monitor, f: Flat, b: Block)
    requires Refines(m, f)
    ensures SameCallbacks(Handled(m, b, true), Scan(f, b))
  {
    var m', f' := Handled(m, b, true), Scan(f, b);
    forall h | h in m'.callbacks ensures Pending(f', h) {
      assert Pending(f, h);
      var e :| e in f.entries && e.hash == h;
      assert e in f'.entries;
    }
  }

  lemma {:induction false} BlockKeepsDeadlines(m: Monitor, f: Flat, b: Block)
    requires Refines(m, f)
    ensures SameDeadlines(Handled(m, b, true), Scan(f, b))
  {
    var m', f' := Handled(m, b, true), Scan(f, b);
    assert forall d: nat :: Bucket(m'.mortal, d) == if d == b.number then {} else Bucket(m.mortal, d);
  }

  lemma {:induction false} ScanKeepsChannels(f: Flat, b: Block)
    requires OwnChannels(f)
    ensures OwnChannels(Scan(f, b))
  {
    var f' := Scan(f, b);
    forall e, r | e in f'.entries ensures (e.listener, r) !in f'.replies {
      assert e in f.entries && (e.listener, r) !in f.replies;
    }
  }

  /** What a finalized block leaves behind: the callbacks that neither its extrinsics nor its deadline
      took out, with their listeners, and every bucket but its own. */
  lemma {:induction false} BlockLeaves(m: Monitor, b: Block, h: Hash, d: nat)
    ensures var m' := Handled(m, b, true);
            && (h in m'.callbacks <==> h in m.callbacks && h !in b.extrinsics && h !in Bucket(m.mortal, b.number))
            && (h in m'.callbacks ==> m'.callbacks[h] == m.callbacks[h])
            && b.number !in m'.mortal
            && (d != b.number ==> Bucket(m'.mortal, d) == Bucket(m.mortal, d))
            && m'.dropped == m.dropped && m.replies <= m'.replies
  {
  }

  lemma {:induction false} BlockRefines(m: Monitor, f: Flat, b: Block)
    requires Refines(m, f)
    ensures Refines(Handled(m, b, true), Scan(f, b))
  {
    BlockReplies(m, f, b);
    BlockKeepsCallbacks(m, f, b);
    BlockKeepsDeadlines(m, f, b);
    ScanKeepsChannels(f, b);
  }

  /**
   * A registration is safe, in the sense that the next finalized block is answered like a scan of
   * the flat list whatever it contains, if and only if it is clean.
   */
  lemma {:induction false} RegistrationSafeIffClean(m: Monitor, f: Flat, h: Hash, until: Option<nat>, l: Listener)
    requires Refines(m, f) && FreshListener(f, l)
    ensures Clean(m, h, until) <==>
            forall b :: Handled(Register(m, h, until, l), b, true).replies
                     == Scan(FlatStep(f, Registration(h, until, l)), b).replies
  {
    var m', f' := Register(m, h, until, l), FlatStep(f, Registration(h, until, l));
    if Clean(m, h, until) {
      RegisterRefines(m, f, h, until, l);
      forall b ensures Handled(m', b, true).replies == Scan(f', b).replies {
        BlockReplies(m', f', b);
      }
    } else if h in m.callbacks {
      OverwrittenListenerLost(m, f, h, until, l);
    } else {
      var d: nat :| h in Bucket(m.mortal, d) && until != Some(d);
      StaleDeadlineFires(m, f, h, until, l, d);
    }
  }

  /** Registering a pending hash again loses the first listener: a block with the hash answers only
      the second one. */
  lemma {:induction false} OverwrittenListenerLost(m: Monitor, f: Flat, h: Hash, until: Option<nat>, l: Listener)
    requires Refines(m, f) && FreshListener(f, l) && h in m.callbacks
    ensures var b := Block(0, h, [h]);
            Handled(Register(m, h, until, l), b, true).replies
            != Scan(FlatStep(f, Registration(h, until, l)), b).replies
  {
    var b := Block(0, h, [h]);
    assert Pending(f, h);
    var e :| e in f.entries && e.hash == h;
    var f' := FlatStep(f, Registration(h, until, l));
    var m' := Register(m, h, until, l);
    assert e in f'.entries && Verdict(e, b) == Some(Success(h));
    assert (e.listener, Success(h)) in Scan(f', b).replies;
    assert (e.listener, Success(h)) !in m'.replies;
    forall g | g in m'.callbacks && g in Elems(b.extrinsics) ensures m'.callbacks[g] != e.listener {
    }
    assert (e.listener, Success(h)) !in Handled(m', b, true).replies;
  }

  /** A deadline left behind by an answered registration fires for a later one of the same hash. */
  lemma {:induction false} StaleDeadlineFires(m: Monitor, f: Flat, h: Hash, until: Option<nat>, l: Listener, d: nat)
    requires Refines(m, f) && FreshListener(f, l) && h !in m.callbacks
    requires h in Bucket(m.mortal, d) && until != Some(d)
    ensures var b := Block(d, h, []);
            Handled(Register(m, h, until, l), b, true).replies
            != Scan(FlatStep(f, Registration(h, until, l)), b).replies
  {
    var b := Block(d, h, []);
    var m', f' := Register(m, h, until, l), FlatStep(f, Registration(h, until, l));
    var r: Reply := Failure(MortalLifetimeSurpassed(d));
    var found := Notify(m', Elems(b.extrinsics), Success(b.hash));
    assert h in found.callbacks && found.callbacks[h] == l && h in Bucket(m'.mortal, d);
    assert (l, r) in Sends(found.callbacks, Bucket(m'.mortal, d), r);
    forall e | e in f'.entries && Verdict(e, b).Some? ensures e.listener != l {
    }
    assert (l, r) !in Scan(f', b).replies;
  }
}
