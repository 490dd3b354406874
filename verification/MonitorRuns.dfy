/**
 * Whole runs of the block monitor: every listener's fate is decided by the first finalized block,
 * after its registration, that contains its hash or is its deadline.
 */
module MonitorRuns {
  import opened Wrappers
  import opened Transactions
  import opened BlockMonitor

  // ---- Runs in which every registration is clean ----

  ghost predicate FreshRun(f: Flat, ops: seq<Op>)
    decreases |ops|
  {
    ops == [] ||
    ((ops[0].Registration? ==> FreshListener(f, ops[0].listener)) && FreshRun(FlatStep(f, ops[0]), ops[1..]))
  }

  ghost predicate CleanRun(m: Monitor, ops: seq<Op>)
    decreases |ops|
  {
    ops == [] ||
    ((ops[0].Registration? ==> Clean(m, ops[0].hash, ops[0].until)) && CleanRun(MonitorStep(m, ops[0]), ops[1..]))
  }

  /** The two maps answer every run of clean registrations and blocks like full scans do. */
  lemma {:induction false} CleanRunRefines(m: Monitor, f: Flat, ops: seq<Op>)
    requires Refines(m, f) && CleanRun(m, ops) && FreshRun(f, ops)
    ensures Refines(MonitorExec(m, ops), FlatExec(f, ops))
    decreases |ops|
  {
    if ops != [] {
      match ops[0] {
        case Registration(h, until, l) => RegisterRefines(m, f, h, until, l);
        case Finalization(b) => BlockRefines(m, f, b);
        case BestBlock(b) =>
      }
      CleanRunRefines(MonitorStep(m, ops[0]), FlatStep(f, ops[0]), ops[1..]);
    }
  }

  /** Best blocks leave the monitor as it is. */
  lemma {:induction false} BestBlocksDoNothing(m: Monitor, b: Block)
    ensures MonitorStep(m, BestBlock(b)) == m
  {
  }

  // ---- Registering each hash once, each time with a new channel, is clean ----

  /** No hash is registered twice and each registration brings its own channel. */
  ghost predicate OnceOnly(ops: seq<Op>) {
    forall i, j :: 0 <= i < j < |ops| && ops[i].Registration? && ops[j].Registration? ==>
      ops[i].hash != ops[j].hash && ops[i].listener != ops[j].listener
  }

  /** Nor is a hash of `hs` or a channel of `ls` used. */
  ghost predicate Unused(hs: set<Hash>, ls: set<Listener>, ops: seq<Op>) {
    forall i :: 0 <= i < |ops| && ops[i].Registration? ==> ops[i].hash !in hs && ops[i].listener !in ls
  }

  /** All hashes and channels the monitor and the list know are among `hs` and `ls`. */
  ghost predicate Known(hs: set<Hash>, ls: set<Listener>, m: Monitor, f: Flat) {
    && (forall h :: h in m.callbacks ==> h in hs)
    && (forall h, d: nat :: h in Bucket(m.mortal, d) ==> h in hs)
    && (forall e :: e in f.entries ==> e.listener in ls)
    && (forall l, r :: (l, r) in f.replies ==> l in ls)
  }

  lemma {:induction false} StepKnown(hs: set<Hash>, ls: set<Listener>, m: Monitor, f: Flat, op: Op)
    requires Known(hs, ls, m, f) && Refines(m, f)
    ensures op.Registration? ==> Known(hs + {op.hash}, ls + {op.listener}, MonitorStep(m, op), FlatStep(f, op))
    ensures !op.Registration? ==> Known(hs, ls, MonitorStep(m, op), FlatStep(f, op))
  {
    var m', f' := MonitorStep(m, op), FlatStep(f, op);
    if op.Finalization? {
      forall h, d: nat | h in Bucket(m'.mortal, d) ensures h in hs {
        assert h in Bucket(m.mortal, d);
      }
      forall l, r | (l, r) in f'.replies ensures l in ls {
        if (l, r) !in f.replies {
          var e :| e in f.entries && Verdict(e, op.block).Some? && e.listener == l;
        }
      }
    } else if op.Registration? {
      forall h, d: nat | h in Bucket(m'.mortal, d) ensures h in hs + {op.hash} {
        assert h in Bucket(m.mortal, d) || h == op.hash;
      }
    }
  }

  lemma {:induction false} OnceOnlyIsClean(hs: set<Hash>, ls: set<Listener>, m: Monitor, f: Flat, ops: seq<Op>)
    requires Known(hs, ls, m, f) && Refines(m, f) && OnceOnly(ops) && Unused(hs, ls, ops)
    ensures CleanRun(m, ops) && FreshRun(f, ops)
    decreases |ops|
  {
    if ops != [] {
      var op, rest := ops[0], ops[1..];
      assert OnceOnly(rest) && Unused(hs, ls, rest);
      StepKnown(hs, ls, m, f, op);
      match op
      case Registration(h, until, l) =>
        RegisterRefines(m, f, h, until, l);
        OnceOnlyIsClean(hs + {h}, ls + {l}, MonitorStep(m, op), FlatStep(f, op), rest);
      case Finalization(b) =>
        BlockRefines(m, f, b);
        OnceOnlyIsClean(hs, ls, MonitorStep(m, op), FlatStep(f, op), rest);
      case BestBlock(b) =>
        OnceOnlyIsClean(hs, ls, MonitorStep(m, op), FlatStep(f, op), rest);
    }
  }

  /** From an idle monitor: if no hash is registered twice, every answer is the one a full scan per
      finalized block gives, and no listener is dropped. */
  lemma {:induction false} MonitorRefinesScan(ops: seq<Op>)
    requires OnceOnly(ops)
    ensures Refines(MonitorExec(IDLE, ops), FlatExec(NO_ENTRIES, ops))
    ensures MonitorExec(IDLE, ops).replies == FlatExec(NO_ENTRIES, ops).replies
    ensures MonitorExec(IDLE, ops).dropped == {}
  {
    OnceOnlyIsClean({}, {}, IDLE, NO_ENTRIES, ops);
    CleanRunRefines(IDLE, NO_ENTRIES, ops);
  }

  // ---- The fate of one listener ----

  /** The verdict of the first finalized block that has one. */
  function Fate(e: Entry, ops: seq<Op>): Option<Reply> {
    if ops == [] then None
    else if ops[0].Finalization? && Verdict(e, ops[0].block).Some? then Verdict(e, ops[0].block)
    else Fate(e, ops[1..])
  }

  lemma {:induction false} StepKeepsChannels(f: Flat, op: Op)
    requires OwnChannels(f) && (op.Registration? ==> FreshListener(f, op.listener))
    ensures OwnChannels(FlatStep(f, op))
  {
    if op.Finalization? {
      ScanKeepsChannels(f, op.block);
    }
  }

  /** Once answered, a channel stays as it is. */
  lemma {:induction false} AnsweredStays(f: Flat, ops: seq<Op>, l: Listener, r: Reply)
    requires FreshRun(f, ops) && (l, r) in f.replies
    requires forall e :: e in f.entries ==> e.listener != l
    ensures forall r' :: (l, r') in FlatExec(f, ops).replies <==> (l, r') in f.replies
    ensures forall e :: e in FlatExec(f, ops).entries ==> e.listener != l
    decreases |ops|
  {
    if ops != [] {
      var f' := FlatStep(f, ops[0]);
      assert (l, r) in f'.replies;
      assert forall r' :: (l, r') in f'.replies <==> (l, r') in f.replies;
      AnsweredStays(f', ops[1..], l, r);
    }
  }

  /** A pending listener is answered with its fate and with nothing else. */
  lemma {:induction false} PendingMeetsFate(f: Flat, ops: seq<Op>, e: Entry)
    requires OwnChannels(f) && FreshRun(f, ops) && e in f.entries
    ensures forall r :: (e.listener, r) in FlatExec(f, ops).replies <==> Fate(e, ops) == Some(r)
    ensures e in FlatExec(f, ops).entries <==> Fate(e, ops).None?
    decreases |ops|
  {
    if ops != [] {
      var f' := FlatStep(f, ops[0]);
      StepKeepsChannels(f, ops[0]);
      if ops[0].Finalization? && Verdict(e, ops[0].block).Some? {
        var v := Verdict(e, ops[0].block).value;
        ScanAnswers(f, e, ops[0].block);
        AnsweredStays(f', ops[1..], e.listener, v);
      } else {
        PendingMeetsFate(f', ops[1..], e);
      }
    }
  }

  lemma {:induction false} ScanAnswers(f: Flat, e: Entry, b: Block)
    requires OwnChannels(f) && e in f.entries && Verdict(e, b).Some?
    ensures forall r :: (e.listener, r) in Scan(f, b).replies <==> Verdict(e, b) == Some(r)
    ensures forall g :: g in Scan(f, b).entries ==> g.listener != e.listener
  {
    assert (e.listener, Verdict(e, b).value) in Scan(f, b).replies;
  }

  /** The first finalized block that decides the fate, and what it does not decide earlier. */
  ghost predicate DecidedAt(e: Entry, ops: seq<Op>, j: nat) {
    && j < |ops| && ops[j].Finalization? && Verdict(e, ops[j].block).Some?
    && forall i :: 0 <= i < j && ops[i].Finalization? ==> Verdict(e, ops[i].block).None?
  }

  lemma {:induction false} FateDecided(e: Entry, ops: seq<Op>) returns (j: nat)
    requires Fate(e, ops).Some?
    ensures DecidedAt(e, ops, j) && Fate(e, ops) == Verdict(e, ops[j].block)
  {
    if ops[0].Finalization? && Verdict(e, ops[0].block).Some? {
      j := 0;
    } else {
      var k := FateDecided(e, ops[1..]);
      assert ops[1..][k] == ops[k + 1];
      assert forall i :: 0 < i < k + 1 ==> ops[i] == ops[1..][i - 1];
      j := k + 1;
    }
  }

  lemma {:induction false} NoFate(e: Entry, ops: seq<Op>, j: nat)
    requires Fate(e, ops).None? && j < |ops| && ops[j].Finalization?
    ensures Verdict(e, ops[j].block).None?
  {
    if j > 0 {
      NoFate(e, ops[1..], j - 1);
    }
  }

  // ---- Runs seen from one registration ----

  lemma {:induction false} ExecConcat(m: Monitor, f: Flat, pre: seq<Op>, post: seq<Op>)
    ensures MonitorExec(m, pre + post) == MonitorExec(MonitorExec(m, pre), post)
    ensures FlatExec(f, pre + post) == FlatExec(FlatExec(f, pre), post)
    ensures FreshRun(f, pre + post) <==> FreshRun(f, pre) && FreshRun(FlatExec(f, pre), post)
    decreases |pre|
  {
    if pre == [] {
      assert pre + post == post;
    } else {
      assert (pre + post)[1..] == pre[1..] + post;
      ExecConcat(MonitorStep(m, pre[0]), FlatStep(f, pre[0]), pre[1..], post);
    }
  }

  lemma {:induction false} ExecKeepsChannels(f: Flat, ops: seq<Op>)
    requires OwnChannels(f) && FreshRun(f, ops)
    ensures OwnChannels(FlatExec(f, ops))
    decreases |ops|
  {
    if ops != [] {
      StepKeepsChannels(f, ops[0]);
      ExecKeepsChannels(FlatStep(f, ops[0]), ops[1..]);
    }
  }

  /**
   * In a run that registers each hash once, the listener of a registration is answered by its fate
   * in what follows, at most once, and is pending exactly while it has none.
   */
  lemma {:induction false} RegistrationMeetsFate(pre: seq<Op>, h: Hash, until: Option<nat>, l: Listener, post: seq<Op>)
    requires OnceOnly(pre + ([Registration(h, until, l)] + post))
    ensures var m := MonitorExec(IDLE, pre + ([Registration(h, until, l)] + post));
            var fate := Fate(Entry(h, until, l), post);
            && (forall r :: (l, r) in m.replies <==> fate == Some(r))
            && (h in m.callbacks && m.callbacks[h] == l <==> fate.None?)
  {
    var op := Registration(h, until, l);
    var ops := pre + ([op] + post);
    var e := Entry(h, until, l);
    MonitorRefinesScan(ops);
    OnceOnlyIsClean({}, {}, IDLE, NO_ENTRIES, ops);
    ExecConcat(IDLE, NO_ENTRIES, pre, [op] + post);
    var f := FlatExec(NO_ENTRIES, pre);
    ExecKeepsChannels(NO_ENTRIES, pre);
    assert ([op] + post)[1..] == post;
    StepKeepsChannels(f, op);
    PendingMeetsFate(FlatStep(f, op), post, e);
    PendingInBoth(MonitorExec(IDLE, ops), FlatExec(NO_ENTRIES, ops), e, FlatStep(f, op), post);
  }

  /** Being a pending entry and having one's channel among the callbacks are the same. */
  lemma {:induction false} PendingInBoth(m: Monitor, f: Flat, e: Entry, f0: Flat, post: seq<Op>)
    requires Refines(m, f) && e in f0.entries && OwnChannels(f0) && FreshRun(f0, post) && f == FlatExec(f0, post)
    ensures e in f.entries <==> e.hash in m.callbacks && m.callbacks[e.hash] == e.listener
  {
    PendingMeetsFate(f0, post, e);
    if Fate(e, post).Some? {
      assert (e.listener, Fate(e, post).value) in f.replies;
    }
    if e.hash in m.callbacks {
      assert Pending(f, e.hash);
    }
  }

  /** An `Ok` names a finalized block that contained the hash after the registration. */
  lemma {:induction false} OkIsInclusion(pre: seq<Op>, h: Hash, until: Option<nat>, l: Listener, post: seq<Op>, b: Hash)
    requires OnceOnly(pre + ([Registration(h, until, l)] + post))
    requires (l, Success(b)) in MonitorExec(IDLE, pre + ([Registration(h, until, l)] + post)).replies
    ensures exists j ::
      0 <= j < |post| && post[j].Finalization? && post[j].block.hash == b && h in post[j].block.extrinsics
  {
    RegistrationMeetsFate(pre, h, until, l, post);
    var j := FateDecided(Entry(h, until, l), post);
  }

  /** An expiry is the listener's own deadline, and no finalized block since the registration, up to
      and including the one with that number, contained the hash. */
  lemma {:induction false} ErrIsExpiry(pre: seq<Op>, h: Hash, until: Option<nat>, l: Listener, post: seq<Op>,
                                       err: Error)
    requires OnceOnly(pre + ([Registration(h, until, l)] + post))
    requires (l, Failure(err)) in MonitorExec(IDLE, pre + ([Registration(h, until, l)] + post)).replies
    ensures err.MortalLifetimeSurpassed? && until == Some(err.block)
    ensures exists j :: 0 <= j < |post| && post[j].Finalization? && post[j].block.number == err.block
                     && forall i :: 0 <= i <= j && post[i].Finalization? ==> h !in post[i].block.extrinsics
  {
    RegistrationMeetsFate(pre, h, until, l, post);
    var j := FateDecided(Entry(h, until, l), post);
    forall i | 0 <= i <= j && post[i].Finalization? ensures h !in post[i].block.extrinsics {
      if i < j {
        assert Verdict(Entry(h, until, l), post[i].block).None?;
      }
    }
  }

  // ---- Answers that are due ----

  lemma {:induction false} FateAt(e: Entry, ops: seq<Op>, j: nat)
    requires j < |ops| && ops[j].Finalization? && Verdict(e, ops[j].block).Some?
    requires forall i :: 0 <= i < j && ops[i].Finalization? ==> Verdict(e, ops[i].block).None?
    ensures Fate(e, ops) == Verdict(e, ops[j].block)
  {
    if j > 0 {
      assert forall i :: 0 <= i < j - 1 ==> ops[1..][i] == ops[i + 1];
      FateAt(e, ops[1..], j - 1);
    }
  }

  /** A finalized block that has the hash or the deadline. */
  predicate Decides(op: Op, h: Hash, until: Option<nat>) {
    op.Finalization? && (h in op.block.extrinsics || until == Some(op.block.number))
  }

  ghost predicate SomeDecides(ops: seq<Op>, h: Hash, until: Option<nat>) {
    exists j :: 0 <= j < |ops| && Decides(ops[j], h, until)
  }

  /** Operation `j` is the first to decide. */
  ghost predicate DecidesFirst(ops: seq<Op>, h: Hash, until: Option<nat>, j: nat) {
    && j < |ops| && Decides(ops[j], h, until)
    && forall i :: 0 <= i < j ==> !Decides(ops[i], h, until)
  }

  /**
   * The first finalized block after a registration that has its hash or its deadline is answered:
   * with `Ok` and that block if it has the hash, with the expiry otherwise.
   */
  lemma {:induction false} DecisionIsAnswered(pre: seq<Op>, h: Hash, until: Option<nat>, l: Listener, post: seq<Op>,
                                              j: nat)
    requires OnceOnly(pre + ([Registration(h, until, l)] + post)) && DecidesFirst(post, h, until, j)
    ensures var replies := MonitorExec(IDLE, pre + ([Registration(h, until, l)] + post)).replies;
            var b := post[j].block;
            && (h in b.extrinsics ==> (l, Success(b.hash)) in replies)
            && (h !in b.extrinsics ==> (l, Failure(MortalLifetimeSurpassed(b.number))) in replies)
  {
    var e := Entry(h, until, l);
    RegistrationMeetsFate(pre, h, until, l, post);
    forall i | 0 <= i < j && post[i].Finalization? ensures Verdict(e, post[i].block).None? {
      assert !Decides(post[i], h, until);
    }
    FateAt(e, post, j);
  }

  /** A listener is answered if and only if a finalized block after its registration has its hash or
      its deadline. */
  lemma {:induction false} AnsweredIff(pre: seq<Op>, h: Hash, until: Option<nat>, l: Listener, post: seq<Op>)
    requires OnceOnly(pre + ([Registration(h, until, l)] + post))
    ensures (exists r :: (l, r) in MonitorExec(IDLE, pre + ([Registration(h, until, l)] + post)).replies)
            <==> SomeDecides(post, h, until)
  {
    var e := Entry(h, until, l);
    RegistrationMeetsFate(pre, h, until, l, post);
    if Fate(e, post).Some? {
      var j := FateDecided(e, post);
      assert Decides(post[j], h, until);
    } else {
      forall j | 0 <= j < |post| ensures !Decides(post[j], h, until) {
        if post[j].Finalization? {
          NoFate(e, post, j);
        }
      }
    }
  }

  // ---- Deadlines under consecutive numbering ----

  function CountFinalized(ops: seq<Op>): nat {
    if ops == [] then 0
    else CountFinalized(ops[..|ops| - 1]) + (if ops[|ops| - 1].Finalization? then 1 else 0)
  }

  /** The finalized blocks are numbered `base`, `base + 1`, ... */
  ghost predicate Numbered(base: nat, ops: seq<Op>) {
    forall i :: 0 <= i < |ops| && ops[i].Finalization? ==> ops[i].block.number == base + CountFinalized(ops[..i])
  }

  /** Every number from `base` on, below the next one to come, has been finalized. */
  lemma {:induction false} NumberReached(base: nat, ops: seq<Op>, n: nat) returns (j: nat)
    requires Numbered(base, ops) && base <= n < base + CountFinalized(ops)
    ensures j < |ops| && ops[j].Finalization? && ops[j].block.number == n && CountFinalized(ops[..j]) == n - base
  {
    var k := |ops| - 1;
    var last := ops[k];
    if last.Finalization? && n == base + CountFinalized(ops[..k]) {
      j := k;
    } else {
      assert Numbered(base, ops[..k]) by {
        forall i | 0 <= i < k && ops[..k][i].Finalization?
          ensures ops[..k][i].block.number == base + CountFinalized(ops[..k][..i])
        {
          assert ops[..k][..i] == ops[..i];
        }
      }
      j := NumberReached(base, ops[..k], n);
      assert ops[..k][..j] == ops[..j];
    }
  }

  lemma {:induction false} CountFinalizedMonotone(ops: seq<Op>, i: nat)
    requires i <= |ops|
    ensures CountFinalized(ops[..i]) <= CountFinalized(ops)
  {
    if i == |ops| {
      assert ops[..i] == ops;
    } else {
      CountFinalizedMonotone(ops[..|ops| - 1], i);
      assert ops[..|ops| - 1][..i] == ops[..i];
    }
  }

  lemma {:induction false} CountBefore(pre: seq<Op>, rest: seq<Op>, j: nat)
    requires j < |pre| && pre[j].Finalization?
    ensures CountFinalized((pre + rest)[..j]) < CountFinalized(pre)
  {
    CountFinalizedMonotone(pre, j + 1);
    assert (pre + rest)[..j] == pre[..j] && pre[..j + 1][..j] == pre[..j];
  }

  /** Block `t`, still to come when `op` happened, is among the operations after it. */
  lemma {:induction false} NumberStillToCome(base: nat, pre: seq<Op>, op: Op, post: seq<Op>, t: nat) returns (k: nat)
    requires op.Registration? && Numbered(base, pre + ([op] + post))
    requires base + CountFinalized(pre) <= t < base + CountFinalized(pre + ([op] + post))
    ensures k < |post| && post[k].Finalization? && post[k].block.number == t
  {
    var ops := pre + ([op] + post);
    var j := NumberReached(base, ops, t);
    if j < |pre| {
      CountBefore(pre, [op] + post, j);
    }
    k := j - |pre| - 1;
    assert ops[j] == post[k];
  }

  /**
   * With consecutively numbered finalized blocks and once-only hashes, a listener registered with
   * deadline `t` before block `t` has been finalized is answered, and no longer pending, once block
   * `t` has been processed.
   */
  lemma {:induction false} DeadlineSafety(base: nat, pre: seq<Op>, h: Hash, t: nat, l: Listener, post: seq<Op>)
    requires var ops := pre + ([Registration(h, Some(t), l)] + post);
             OnceOnly(ops) && Numbered(base, ops) && t < base + CountFinalized(ops)
    requires base + CountFinalized(pre) <= t
    ensures var m := MonitorExec(IDLE, pre + ([Registration(h, Some(t), l)] + post));
            && (exists r :: (l, r) in m.replies)
            && !(h in m.callbacks && m.callbacks[h] == l)
  {
    var e := Entry(h, Some(t), l);
    var k := NumberStillToCome(base, pre, Registration(h, Some(t), l), post, t);
    assert Verdict(e, post[k].block).Some?;
    if Fate(e, post).None? {
      NoFate(e, post, k);
    }
    assert Fate(e, post).Some?;
    RegistrationMeetsFate(pre, h, Some(t), l, post);
  }

  /** A channel that got a reply had been registered. */
  lemma {:induction false} ReplyHasRegistration(f: Flat, ops: seq<Op>, l: Listener, r: Reply)
    requires (l, r) in FlatExec(f, ops).replies && (l, r) !in f.replies
    ensures (exists e :: e in f.entries && e.listener == l)
         || (exists i :: 0 <= i < |ops| && ops[i].Registration? && ops[i].listener == l)
    decreases |ops|
  {
    if ops != [] {
      var f', rest := FlatStep(f, ops[0]), ops[1..];
      if (l, r) !in f'.replies {
        ReplyHasRegistration(f', rest, l, r);
        if exists e :: e in f'.entries && e.listener == l {
          var e :| e in f'.entries && e.listener == l;
          assert e in f.entries || (ops[0].Registration? && ops[0].listener == l);
        } else {
          var i :| 0 <= i < |rest| && rest[i].Registration? && rest[i].listener == l;
          assert ops[i + 1] == rest[i];
        }
      }
    }
  }
}
