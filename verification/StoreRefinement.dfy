/** The job store is the store of the whole-broker machine: each method is a run of its steps, and reopening after a
    crash lands where its Crash does. What is proved of every run therefore holds of what the methods do. */
module StoreRefinement {
  import opened Options
  import opened Jobs
  import opened Recovery
  import opened System
  import opened Core
  import opened Runs
  import D = Durability
  import B = Backoff
  import S = Store
  import G = GroupCommit

  ghost predicate Shows(st: S.Store, s: Broker)
    reads st, st.index
  {
    st.Valid() && st.View() == s.img && st.log == s.log && st.nextEpoch == s.nextEpoch && s.lock.Unlocked?
  }

  ghost predicate Unused(s: Broker, ch: G.Ch) {
    ch !in s.calls && ch !in s.gc.joined
  }

  /** The step that logs one event, if one was logged. */
  function Logged(e: Option<Event>, ch: G.Ch): seq<Act> {
    if e.Some? then [Record(e.value, ch)] else []
  }

  lemma LoggedRun(s: Broker, e: Option<Event>, ch: G.Ch) returns (s': Broker)
    requires s.lock.Unlocked? && Unused(s, ch) && (e.Some? ==> Legit(s.img, s.nextEpoch, e.value))
    ensures Run(s, Logged(e, ch), true, s') && s'.lock.Unlocked?
    ensures s' == if e.Some? then DoRecord(s, e.value, ch) else s
  {
    if e.Some? {
      s' := Do(s, Record(e.value, ch), true);
      assert [Record(e.value, ch)][1..] == [];
      assert Run(s', [], true, s');
    } else {
      s' := s;
    }
  }

  /** An accepted submission is one record, a deduplicated one is the machine's unlogged answer, and any other is
      nothing. */
  method Submit(st: S.Store, p: S.SubmitParams, id: Id, now: Time, takes: Event -> bool, ghost s: Broker,
      ghost ch: G.Ch)
    returns (r: S.SubmitReply, ghost s': Broker)
    requires Shows(st, s) && id !in st.jobs && Unused(s, ch)
    modifies st, st.index
    ensures Shows(st, s')
    ensures Run(s, if r.Duplicate? then [Dedup(p.queue, p.key)]
      else Logged(if r.Accepted? then Some(Event.Submit(r.job)) else None, ch), true, s')
    ensures r.Duplicate? ==> r.job.spec.id in s'.answered
  {
    hide Run, Legit, Effect;
    st.StoreOwnIds();
    r := st.Submit(p, id, now, takes);
    if r.Duplicate? {
      s' := Do(s, Dedup(p.queue, p.key), true);
      RunOne(s, Dedup(p.queue, p.key), true);
    } else {
      s' := LoggedRun(s, if r.Accepted? then Some(Event.Submit(r.job)) else None, ch);
    }
  }

  method Ack(st: S.Store, id: Id, epoch: nat, takes: Event -> bool, ghost s: Broker, ghost ch: G.Ch)
    returns (r: S.AckReply, ghost s': Broker)
    requires Shows(st, s) && Unused(s, ch)
    modifies st, st.index
    ensures Shows(st, s')
    ensures Run(s, Logged(if r.Acked? then Some(Event.Ack(id, epoch)) else None, ch), true, s')
  {
    hide Run, Legit, Effect;
    r := st.Ack(id, epoch, takes);
    s' := LoggedRun(s, if r.Acked? then Some(Event.Ack(id, epoch)) else None, ch);
  }

  method Nack(st: S.Store, id: Id, epoch: nat, reason: string, now: Time, draw: nat, takes: Event -> bool,
      ghost s: Broker, ghost ch: G.Ch)
    returns (r: S.NackReply, ghost s': Broker)
    requires Shows(st, s) && Unused(s, ch)
    modifies st, st.index
    ensures Shows(st, s') && (r.Nacked? ==> id in s.img.jobs)
    ensures r.Nacked? ==>
      var delay := B.Backoff(s.img.jobs[id].attempt, st.backoffBase, st.backoffCap, draw);
      Run(s, [Record(S.NackEvent(s.img.jobs[id], reason, now, delay), ch)], true, s')
    ensures !r.Nacked? ==> s' == s
  {
    hide Run, Legit, Effect, B.Backoff, B.Delay, B.OrDefault, NextState;
    hide S.IndexHonest, S.NoneStranded, IdemExact, LeasedIds, HoldsLease;
    r := st.Nack(id, epoch, reason, now, draw, takes);
    if r.Nacked? {
      var delay := B.Backoff(s.img.jobs[id].attempt, st.backoffBase, st.backoffCap, draw);
      s' := LoggedRun(s, Some(S.NackEvent(s.img.jobs[id], reason, now, delay)), ch);
    } else {
      s' := s;
    }
  }

  method ReplayDead(st: S.Store, id: Id, now: Time, takes: Event -> bool, ghost s: Broker, ghost ch: G.Ch)
    returns (r: S.ReplayReply, ghost s': Broker)
    requires Shows(st, s) && Unused(s, ch)
    modifies st, st.index
    ensures Shows(st, s')
    ensures Run(s, Logged(if r.Replayed? then Some(ReplayJob(id, now)) else None, ch), true, s')
  {
    hide Run, Legit, Effect;
    r := st.ReplayDead(id, now, takes);
    s' := LoggedRun(s, if r.Replayed? then Some(ReplayJob(id, now)) else None, ch);
  }

  method Heartbeat(st: S.Store, id: Id, epoch: nat, now: Time, dur: int, ghost s: Broker)
    returns (r: S.BeatReply, ghost s': Broker)
    requires Shows(st, s)
    modifies st
    ensures Shows(st, s')
    ensures Run(s, if r.Extended? then [Beat(id, epoch, now + dur)] else [], true, s')
  {
    hide S.IndexHonest, S.NoneStranded, IdemExact;
    r := st.Heartbeat(id, epoch, now, dur);
    s' := s;
    if r.Extended? {
      s' := Do(s, Beat(id, epoch, now + dur), true);
      assert [Beat(id, epoch, now + dur)][1..] == [];
      assert Run(s', [], true, s');
    }
  }

  // ------------------------------------------------------------------ tokens ---

  /** A thread that may reserve: it is not flushing already. Other threads may be in the middle of anything. */
  ghost predicate Free(s: Broker, tid: G.Tid) {
    tid !in s.gc.loops && tid !in s.gc.syncs && G.LogInv(s.gc)
  }

  ghost predicate Needed(s: Broker) {
    s.img.ceiling < s.nextEpoch
  }

  /** The steps of a lease: a reservation when the block is used up, then the record, or a token forfeited. */
  ghost function LeaseActs(s: Broker, block: nat, tid: G.Tid, r: S.LeaseReply, worker: string, expires: Time, ch: G.Ch,
      claim: S.Claim): seq<Act> {
    var reserve := if Needed(s) then ReserveActs(block, tid) else [];
    match r
    case Nothing => []
    case LeaseRefused =>
      if Needed(s) && claim.NotAppended? then []
      else if Needed(s) && claim.NotFlushed? then [Reserve(block, tid), Inner(G.Fail(tid))]
      else reserve + [Forfeit]
    case Granted(j) => reserve + [Record(Event.Lease(j.spec.id, s.nextEpoch, worker, expires, j.attempt), ch)]
  }

  /** The broker once a block has been claimed if one was needed. */
  lemma TokenRun(s: Broker, block: nat, tid: G.Tid) returns (acts: seq<Act>, s1: Broker)
    requires s.lock.Unlocked? && 0 < block && (Needed(s) ==> Free(s, tid) && !s.gc.broken)
    ensures var es := if Needed(s) then [EpochReserve(s.nextEpoch + block - 1)] else [];
            && acts == (if Needed(s) then ReserveActs(block, tid) else [])
            && s1.log == s.log + es && s1.img == FoldFrom(s.img, es)
    ensures Run(s, acts, true, s1) && s1.lock.Unlocked? && s1.nextEpoch == s.nextEpoch <= s1.img.ceiling
    ensures s1.calls == s.calls && s1.gc.joined == s.gc.joined
  {
    if Needed(s) {
      acts := ReserveActs(block, tid);
      s1 := ReserveRun(s, block, tid);
      S.FoldOne(s.img, EpochReserve(s.nextEpoch + block - 1));
    } else {
      acts, s1 := [], s;
      NoSteps(s, true);
    }
  }

  /** A reservation whose flush fails ends what the run can promise: the record is in the log and nothing is claimed. */
  lemma FailedClaim(s: Broker, block: nat, tid: G.Tid) returns (s': Broker)
    requires s.lock.Unlocked? && Needed(s) && Free(s, tid) && 0 < block
    ensures Run(s, [Reserve(block, tid), Inner(G.Fail(tid))], true, s') && s'.gc.broken
    ensures s'.log == s.log + [EpochReserve(s.nextEpoch + block - 1)] && s'.img == s.img && s'.nextEpoch == s.nextEpoch
  {
    hide Run;
    Two(s, Reserve(block, tid), Inner(G.Fail(tid)), true);
    s' := Do(Do(s, Reserve(block, tid), true), Inner(G.Fail(tid)), true);
  }

  /** The store after a lease, which the machine shows again unless the lease's reservation could not be flushed. */
  ghost predicate ShowsLeased(st: S.Store, s: Broker, unflushed: bool)
    reads st, st.index
  {
    if unflushed then st.Valid() && st.View() == s.img && st.log == s.log && st.nextEpoch == s.nextEpoch && s.gc.broken
    else Shows(st, s)
  }

  lemma LegitKnows(m: Image, nextEpoch: nat, e: Event)
    requires Legit(m, nextEpoch, e) && e.Lease?
    ensures e.id in m.jobs
  {
  }

  lemma LeaseSetsAttempt(m: Image, e: Event)
    requires e.Lease? && e.id in m.jobs
    ensures e.id in Effect(m, e).jobs && Effect(m, e).jobs[e.id].attempt == e.attempt
  {
  }

  method Lease(st: S.Store, queue: string, worker: string, now: Time, dur: int, claim: S.Claim, takes: Event -> bool,
               ghost s: Broker, ghost ch: G.Ch, ghost tid: G.Tid)
    returns (r: S.LeaseReply, ghost s': Broker)
    requires Shows(st, s) && Unused(s, ch)
    requires Needed(s) ==> Free(s, tid) && (claim.Flushed? ==> !s.gc.broken)
    modifies st, st.index
    ensures ShowsLeased(st, s', r.LeaseRefused? && Needed(s) && claim.NotFlushed?)
    ensures Run(s, LeaseActs(s, st.epochBlockSize, tid, r, worker, now + dur, ch, claim), true, s')
  {
    hide Run, Legit, Effect, FoldFrom, S.IndexHonest, S.NoneStranded, IdemExact, LeasedIds, ReserveActs, Free;
    ghost var reservation := st.Reservation();
    r := st.Lease(queue, worker, now, dur, claim, takes);
    s' := s;
    if r.Nothing? || (r.LeaseRefused? && Needed(s) && claim.NotAppended?) {
      NoSteps(s, true);
    } else if r.LeaseRefused? && Needed(s) && claim.NotFlushed? {
      s' := FailedClaim(s, st.epochBlockSize, tid);
    } else {
      ghost var acts, s1 := TokenRun(s, st.epochBlockSize, tid);
      if r.LeaseRefused? {
        s' := Do(s1, Forfeit, true);
        RunOne(s1, Forfeit, true);
        RunConcat(s, acts, s1, [Forfeit], true, s');
      } else {
        var id := r.job.spec.id;
        var e := Event.Lease(id, s.nextEpoch, worker, now + dur, s.img.jobs[id].attempt + 1);
        LegitKnows(s1.img, s1.nextEpoch, e);
        LeaseSetsAttempt(s1.img, e);
        s' := LoggedRun(s1, Some(e), ch);
        RunConcat(s, acts, s1, [Record(e, ch)], true, s');
      }
    }
  }

  // ------------------------------------------------------------------- sweeps ---

  /** The failures a sweep logs, and the steps that log them. */
  ghost function SweepEvents(jobs: map<Id, Job>, reclaimed: seq<Id>, p: S.SweepParams): seq<Event>
    requires forall i :: 0 <= i < |reclaimed| ==> reclaimed[i] in jobs
  {
    seq(|reclaimed|, i requires 0 <= i < |reclaimed| => S.TimeoutEvent(jobs[reclaimed[i]], p))
  }

  ghost function SweepActs(es: seq<Event>, ch: G.Ch): seq<Act> {
    seq(|es|, i requires 0 <= i < |es| => Record(es[i], ch + i))
  }

  ghost predicate UnusedFrom(s: Broker, ch: G.Ch) {
    forall c :: ch <= c ==> Unused(s, c)
  }

  /** A broker part-way through a sweep: the first k failures are logged, and every other job is as it was. */
  ghost predicate SweptTo(s: Broker, es: seq<Event>, reclaimed: seq<Id>, k: nat, s': Broker, ch: G.Ch) {
    && k <= |es| == |reclaimed| && s'.lock.Unlocked? && s'.nextEpoch == s.nextEpoch && UnusedFrom(s', ch + k)
    && s'.log == s.log + es[..k] && s'.img == FoldFrom(s.img, es[..k])
    && forall id :: id in s.img.jobs && id !in reclaimed[..k] ==> id in s'.img.jobs && s'.img.jobs[id] == s.img.jobs[id]
  }

  lemma SweepStep(s: Broker, es: seq<Event>, reclaimed: seq<Id>, k: nat, s1: Broker, ch: G.Ch, p: S.SweepParams)
    requires SweptTo(s, es, reclaimed, k, s1, ch) && k < |es|
    requires forall i :: 0 <= i < |reclaimed| ==>
      reclaimed[i] in s.img.jobs && S.Expired(s.img.jobs, p.now, reclaimed[i])
    requires S.OwnIds(s.img.jobs) && reclaimed[k] !in reclaimed[..k]
      && es[k] == S.TimeoutEvent(s.img.jobs[reclaimed[k]], p)
    ensures Enabled(s1, Record(es[k], ch + k), true)
    ensures SweptTo(s, es, reclaimed, k + 1, Do(s1, Record(es[k], ch + k), true), ch)
  {
    hide FoldFrom, Effect, B.Backoff, B.Delay, B.OrDefault;
    var e := es[k];
    assert s1.img.jobs[reclaimed[k]] == s.img.jobs[reclaimed[k]];
    assert HoldsLease(s1.img.jobs[e.id], e.epoch) && Legit(s1.img, s1.nextEpoch, e) && Unused(s1, ch + k);
    var s2 := DoRecord(s1, e, ch + k);
    assert es[..k + 1] == es[..k] + [e];
    FoldSnoc(s.img, es[..k], e);
    assert reclaimed[..k + 1] == reclaimed[..k] + [reclaimed[k]];
    forall id | id in s.img.jobs && id !in reclaimed[..k + 1]
      ensures id in s2.img.jobs && s2.img.jobs[id] == s.img.jobs[id]
    {
      assert id !in reclaimed[..k];
      EffectOnJob(s1.img, e, id);
    }
    forall c | ch + k + 1 <= c
      ensures Unused(s2, c)
    {
      assert Unused(s1, c);
    }
  }

  lemma {:induction false} SweepRun(s: Broker, es: seq<Event>, reclaimed: seq<Id>, k: nat, ch: G.Ch, p: S.SweepParams)
    returns (s': Broker)
    requires s.lock.Unlocked? && UnusedFrom(s, ch) && S.OwnIds(s.img.jobs) && k <= |es| == |reclaimed|
    requires forall i :: 0 <= i < |reclaimed| ==>
      reclaimed[i] in s.img.jobs && S.Expired(s.img.jobs, p.now, reclaimed[i])
    requires forall i, j :: 0 <= i < j < |reclaimed| ==> reclaimed[i] != reclaimed[j]
    requires forall i :: 0 <= i < |es| ==> es[i] == S.TimeoutEvent(s.img.jobs[reclaimed[i]], p)
    ensures Run(s, SweepActs(es[..k], ch), true, s') && SweptTo(s, es, reclaimed, k, s', ch)
  {
    hide Run, S.TimeoutEvent, SweptTo, Enabled, Do;
    if k == 0 {
      s' := s;
      NoSteps(s, true);
      assert SweptTo(s, es, reclaimed, 0, s, ch) by { NotYetSwept(s, es, reclaimed, ch); }
    } else {
      var s1 := SweepRun(s, es, reclaimed, k - 1, ch, p);
      SweepStep(s, es, reclaimed, k - 1, s1, ch, p);
      var a := Record(es[k - 1], ch + k - 1);
      s' := Do(s1, a, true);
      RunOne(s1, a, true);
      RunConcat(s, SweepActs(es[..k - 1], ch), s1, [a], true, s');
      assert SweepActs(es[..k], ch) == SweepActs(es[..k - 1], ch) + [a];
    }
  }

  lemma NotYetSwept(s: Broker, es: seq<Event>, reclaimed: seq<Id>, ch: G.Ch)
    requires s.lock.Unlocked? && UnusedFrom(s, ch) && |es| == |reclaimed|
    ensures SweptTo(s, es, reclaimed, 0, s, ch)
  {
    assert es[..0] == [] && s.log + [] == s.log;
  }

  method ReclaimExpired(st: S.Store, now: Time, draws: Id -> nat, takes: Event -> bool, ghost s: Broker, ghost ch: G.Ch)
    returns (ok: bool, reclaimed: seq<Id>, ghost s': Broker)
    requires Shows(st, s) && UnusedFrom(s, ch)
    modifies st, st.index
    ensures Shows(st, s') && forall i :: 0 <= i < |reclaimed| ==>
      reclaimed[i] in s.img.jobs && S.Expired(s.img.jobs, now, reclaimed[i])
    ensures Run(s, SweepActs(SweepEvents(s.img.jobs, reclaimed, st.Sweep(now, draws)), ch), true, s')
  {
    hide Run, SweepActs, S.IndexHonest, S.NoneStranded, LeasedIds, S.TimeoutEvent;
    ghost var p := st.Sweep(now, draws);
    st.StoreOwnIds();
    ok, reclaimed := st.ReclaimExpired(now, draws, takes);
    ghost var es := SweepEvents(s.img.jobs, reclaimed, p);
    assert st.log[|s.log|..] == es;
    s' := SweepRun(s, es, reclaimed, |es|, ch, p);
    assert es[..|es|] == es;
  }

  // ------------------------------------------------------------------ restarts ---

  lemma SnapshotLoads(s: Broker, listed: seq<Job>)
    requires D.Inv(s) && S.Lists(listed, s.snap.jobs)
    ensures S.Loaded(listed, s.snap.ceiling) == Load(s.snap)
    ensures IdemExact(S.LoadAll(listed).jobs, S.LoadAll(listed).idem)
  {
    hide G.Inv, MemInv, CapInv, FoldFrom, S.Lists, S.LoadAll, IdemExact;
    var l := Fold(s.log[..s.snap.lsn]);
    SoundPrefix(s.log, s.snap.lsn);
    FoldIdemExact(s.log[..s.snap.lsn]);
    SpecsSuffice(l.jobs, s.snap.jobs, l.idem);
    S.LoadingIsOrderBlind(listed, s.snap, l.idem);
  }

  lemma {:induction false} SuffixApplies(s: Broker, k: nat)
    requires D.Inv(s) && s.snap.lsn <= k <= |s.log|
    ensures S.Additive(Load(s.snap), s.log[s.snap.lsn..k]) && S.Replayable(Load(s.snap), s.log[s.snap.lsn..k])
  {
    hide CoreInv, D.CallInv, FoldFrom, Load;
    var n := s.snap.lsn;
    if n < k {
      SuffixApplies(s, k - 1);
      D.SuffixApplies(s, k, k - 1);
      assert s.log[n..k][..k - 1 - n] == s.log[n..k - 1];
    }
  }

  lemma WhatIsRecovered(s: Broker, kept: nat, stable: nat, now: Time)
    requires D.Inv(s) && Enabled(s, Crash(kept, stable, now), true)
    ensures s.snap.lsn <= kept <= |s.log| && 1 <= s.first
    ensures Suffix(s.snap, s.first, s.log[..kept]) == s.log[s.snap.lsn..kept]
    ensures s.log[..s.snap.lsn] + s.log[s.snap.lsn..kept] == s.log[..kept]
  {
    hide G.Inv, SnapInv, MemInv, CapInv, D.CallInv, SoundLog;
  }

  /** Opening after a crash, from the newest visible snapshot and the records replay finds, never fails, whatever order
      the snapshot lists its jobs in, and gives a valid store in the state the machine's Crash recovers. */
  method Restart(base: B.Int64, cap: B.Int64, block: nat, listed: seq<Job>, ceiling: nat, before: seq<Event>,
      records: seq<Event>,
                 now: Time, ghost s: Broker, ghost kept: nat, ghost stable: nat)
    returns (st: S.Store, ok: bool)
    requires D.Inv(s) && Enabled(s, Crash(kept, stable, now), true)
    requires S.Lists(listed, s.snap.jobs) && ceiling == s.snap.ceiling && before == s.log[..s.snap.lsn]
    requires records == Suffix(s.snap, s.first, s.log[..kept])
    ensures ok && fresh(st) && Shows(st, Do(s, Crash(kept, stable, now), true))
  {
    hide G.Inv, SnapInv, MemInv, CapInv, D.CallInv, SoundLog, FoldFrom, Effect, Load, Release;
    WhatIsRecovered(s, kept, stable, now);
    SnapshotLoads(s, listed);
    SuffixApplies(s, kept);
    hide D.Inv, S.Loaded, S.LoadAll, S.Lists, S.Additive, S.Replayable, Enabled;
    hide S.IndexHonest, S.NoneStranded, IdemExact, LeasedIds;
    st := new S.Store(base, cap, block);
    ok := st.Recover(listed, ceiling, before, records, now);
  }
}
