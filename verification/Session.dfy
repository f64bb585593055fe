/** A broker's life over bytes: the log object and the store together, through operations, flushes, snapshots, deletion
    and any number of crashes that cut the bytes anywhere past their durable part.

    Each method is an operation's critical section, an event appended exactly when the log takes its encoding. Between
    them come the steps of other threads. */
module Session {
  import opened Options
  import opened Framing
  import opened Wal
  import opened Jobs
  import opened Recovery
  import opened System
  import opened Runs
  import C = Core
  import D = Durability
  import B = Backoff
  import S = Store
  import SR = StoreRefinement
  import L = LogRefinement
  import E = EndToEnd
  import G = GroupCommit

  /** Going on from a reachable state. */
  lemma Onward(run: seq<Act>, s: Broker, more: seq<Act>, s': Broker)
    requires Run(Init(), run, true, s) && Run(s, more, true, s')
    ensures Run(Init(), run + more, true, s') && D.Inv(s) && D.Inv(s') && s.granted <= s'.granted
  {
    hide D.Inv, Run;
    RunConcat(Init(), run, s, more, true, s');
    D.InitInv();
    D.RunKeepsInv(Init(), run, s);
    D.RunKeepsInv(s, more, s');
  }

  /** What logging an event does to the machine, with or without a rotation. */
  lemma RecordIs(s: Broker, e: Event, ch: G.Ch, full: bool)
    requires Enabled(s, Record(e, ch), true) && (full ==> G.Enabled(s.gc, G.Rotate))
    ensures var s' := DoRecord(E.Sealed(s, full), e, ch);
            && s'.img == Effect(s.img, e) && s'.log == s.log + [e] && s'.lock == s.lock && s'.granted == s.granted
            && s'.nextEpoch == if e.Lease? then s.nextEpoch + 1 else s.nextEpoch
    ensures var s' := DoRecord(E.Sealed(s, full), e, ch);
            s'.issued == (if e.Lease? then s.issued + [e.epoch] else s.issued) && s'.calls == s.calls[ch := |s.log| + 1]
              && s'.gc.joined == s.gc.joined && s'.gc.syncs == s.gc.syncs
  {
    hide Legit, Effect;
  }

  /** The flush of a claim that s has appended, step by step. */
  lemma ReservePath(s: Broker, block: nat, tid: G.Tid) returns (s1: Broker, s2: Broker, s3: Broker, s4: Broker)
    requires Enabled(s, Reserve(block, tid), true) && G.LogInv(s.gc) && !s.gc.broken
    ensures 0 < block && s1 == Do(s, Reserve(block, tid), true)
    ensures Enabled(s1, Inner(G.Write(tid)), true) && s2 == Do(s1, Inner(G.Write(tid)), true)
    ensures Enabled(s2, Inner(G.Begin(tid)), true) && s3 == Do(s2, Inner(G.Begin(tid)), true)
    ensures Enabled(s3, Inner(G.End(tid)), true) && s4 == Do(s3, Inner(G.End(tid)), true)
    ensures Enabled(s4, ReserveDone, true) && Do(s4, ReserveDone, true) == Reserved(s, block)
  {
    hide Run;
    var s' := ReserveRun(s, block, tid);
    FiveSteps(s, Reserve(block, tid), Inner(G.Write(tid)), Inner(G.Begin(tid)), Inner(G.End(tid)), ReserveDone, s');
    s1 := Do(s, Reserve(block, tid), true);
    s2 := Do(s1, Inner(G.Write(tid)), true);
    s3 := Do(s2, Inner(G.Begin(tid)), true);
    s4 := Do(s3, Inner(G.End(tid)), true);
  }

  ghost function Reserved(s: Broker, block: nat): Broker
    requires 0 < block
  {
    var e := EpochReserve(s.nextEpoch + block - 1);
    s.(log := s.log + [e], img := Effect(s.img, e),
       gc := s.gc.(appended := s.gc.appended + 1, written := s.gc.appended + 1,
                   synced := if s.gc.base <= s.gc.appended + 1 then s.gc.appended + 1 - s.gc.base else 0))
  }

  lemma FiveSteps(s: Broker, a: Act, b: Act, c: Act, d: Act, e: Act, s': Broker)
    requires Run(s, [a, b, c, d, e], true, s')
    ensures Enabled(s, a, true) && var s1 := Do(s, a, true);
            Enabled(s1, b, true) && var s2 := Do(s1, b, true);
            Enabled(s2, c, true) && var s3 := Do(s2, c, true);
            Enabled(s3, d, true) && var s4 := Do(s3, d, true);
            Enabled(s4, e, true) && s' == Do(s4, e, true)
  {
    hide Enabled, Do;
    var acts := [a, b, c, d, e];
    assert acts[1..] == [b, c, d, e] && acts[1..][1..] == [c, d, e] && acts[1..][1..][1..] == [d, e];
    assert acts[1..][1..][1..][1..] == [e] && acts[1..][1..][1..][1..][1..] == [];
    FirstStep(s, acts, s');
    var s1 := Do(s, a, true);
    FirstStep(s1, [b, c, d, e], s');
    var s2 := Do(s1, b, true);
    FirstStep(s2, [c, d, e], s');
    var s3 := Do(s2, c, true);
    FirstStep(s3, [d, e], s');
    var s4 := Do(s3, d, true);
    FirstStep(s4, [e], s');
  }

  lemma FirstStep(s: Broker, acts: seq<Act>, s': Broker)
    requires acts != [] && Run(s, acts, true, s')
    ensures Enabled(s, acts[0], true) && Run(Do(s, acts[0], true), acts[1..], true, s')
    ensures |acts| == 1 ==> s' == Do(s, acts[0], true)
  {
  }

  /** Steps of other threads that leave the store's fields alone: the committer's, and those of a snapshot. */
  predicate Behind(a: Act) {
    match a
    case Inner(b) => b.Join? || b.Take? || b.Return? || b.Reply?
    case Capture => true
    case Read(_, _) => true
    case Publish => true
    case _ => false
  }

  lemma BehindIs(s: Broker, a: Act)
    requires Behind(a) && Enabled(s, a, true)
    ensures E.Unlogged(a)
    ensures var s' := Do(s, a, true);
            s'.img == s.img && s'.log == s.log && s'.nextEpoch == s.nextEpoch && s'.lock == s.lock
  {
    hide G.Do, G.Enabled, InnerEnabled, Acknowledges, Complete;
  }

  lemma SyncIs(s: Broker, b: G.Act)
    requires Enabled(s, Inner(b), true)
    ensures var s' := Do(s, Inner(b), true);
            s'.img == s.img && s'.log == s.log && s'.nextEpoch == s.nextEpoch && s'.lock == s.lock
  {
    hide G.Do, G.Enabled, InnerEnabled, Acknowledges;
  }

  lemma MemoryIs(s: Broker, a: Act)
    requires Enabled(s, a, true) && (a.Beat? || a.Dedup? || a.Forfeit?)
    ensures E.Unlogged(a)
    ensures var s' := Do(s, a, true);
            && s'.log == s.log && s'.lock == s.lock
              && s'.nextEpoch == (if a.Forfeit? then s.nextEpoch + 1 else s.nextEpoch)
            && s'.img == if a.Beat?
                         then s.img.(jobs := s.img.jobs[a.id := s.img.jobs[a.id].(leaseExpiresAt := a.until)])
                         else s.img
    ensures a.Dedup? ==> IdemKey(a.queue, a.key) in s.img.idem
                         && Do(s, a, true).answered == s.answered + {s.img.idem[IdemKey(a.queue, a.key)]}
  {
  }

  lemma SealedIs(s: Broker, full: bool, block: nat, tid: G.Tid)
    requires Enabled(s, Reserve(block, tid), true) && G.LogInv(s.gc) && !s.gc.broken
      && (full ==> G.Enabled(s.gc, G.Rotate))
    ensures var s1 := E.Sealed(s, full);
            && G.LogInv(s1.gc) && !s1.gc.broken && Enabled(s1, Reserve(block, tid), true)
            && s1 == s.(gc := s1.gc) && s1.gc.syncs == s.gc.syncs && s1.gc.joined == s.gc.joined
  {
  }

  lemma ClaimedImage(m: Image, claimed: Event, needed: bool)
    ensures FoldFrom(m, if needed then [claimed] else []) == if needed then Effect(m, claimed) else m
    ensures claimed.EpochReserve? ==> Effect(m, claimed).ceiling == claimed.upTo
  {
    S.FoldOne(m, claimed);
  }

  lemma LeaseSets(m: Image, e: Event)
    requires e.Lease? && e.id in m.jobs
    ensures e.id in Effect(m, e).jobs && Effect(m, e).jobs[e.id].attempt == e.attempt
      && Effect(m, e).jobs[e.id].epoch == e.epoch
  {
  }

  lemma IsTimeout(j: Job, p: S.SweepParams)
    ensures S.TimeoutEvent(j, p).Fail?
  {
  }

  lemma RecordNeeds(s: Broker, e: Event, ch: G.Ch)
    requires Enabled(s, Record(e, ch), true)
    ensures s.lock.Unlocked? && SR.Unused(s, ch) && Legit(s.img, s.nextEpoch, e)
  {
  }

  lemma SweptSame(s0: Broker, es: seq<Event>, reclaimed: seq<Id>, k: nat, s1: Broker, s2: Broker, ch: G.Ch, e: Event)
    requires 0 < k && Enabled(s1, Record(e, ch + k - 1), true)
    requires SR.SweptTo(s0, es, reclaimed, k, Do(s1, Record(e, ch + k - 1), true), ch) && !e.Lease?
    requires s2.lock.Unlocked? && s2.nextEpoch == s1.nextEpoch && s2.log == s1.log + [e] && s2.img == Effect(s1.img, e)
    requires s2.calls == s1.calls[ch + k - 1 := |s2.log|] && s2.gc.joined == s1.gc.joined
    ensures SR.SweptTo(s0, es, reclaimed, k, s2, ch)
  {
    hide Legit, Effect, FoldFrom;
    var s' := Do(s1, Record(e, ch + k - 1), true);
    assert s'.calls == s2.calls && s'.gc.joined == s2.gc.joined;
    forall c | ch + k <= c
      ensures SR.Unused(s2, c)
    {
      assert SR.Unused(s', c);
    }
  }

  lemma SweptAll(s0: Broker, es: seq<Event>, reclaimed: seq<Id>, s: Broker, ch: G.Ch)
    requires SR.SweptTo(s0, es, reclaimed, |reclaimed|, s, ch)
    ensures s.lock.Unlocked? && s.nextEpoch == s0.nextEpoch && s.log == s0.log + es && s.img == FoldFrom(s0.img, es)
  {
    assert es[..|es|] == es;
  }

  lemma IdemNames(jobs: map<Id, Job>, idem: map<string, Id>)
    requires IdemExact(jobs, idem)
    ensures forall k :: k in idem ==> idem[k] in jobs && jobs[idem[k]].spec.id == idem[k]
  {
  }

  class Session {
    const enc: Event -> seq<Byte>
    const dec: seq<Byte> -> Event
    var w: Log
    var st: S.Store
    /** The machine this log and this store are at, and the run that led there. */
    ghost var s: Broker
    ghost var run: seq<Act>

    /** The log half: what is in files and buffer is what the machine's log says, in a reachable state. */
    ghost predicate Logged()
      reads this, w
    {
      E.Holds(w, s, enc) && Run(Init(), run, true, s)
    }

    ghost predicate Valid()
      reads this, w, st, st.index
    {
      Logged() && SR.Shows(st, s)
    }

    function Takes(): Event -> bool {
      e => Appendable(enc(e))
    }

    /** No flush stands in the way of the rotation that appending this event may need. */
    ghost predicate Ready(e: Event)
      reads this, w
    {
      L.Full(w, enc(e)) ==> forall t :: !G.Flushes(s.gc, t)
    }

    /** An empty directory and an empty store are the empty broker. */
    constructor (crc: Crc, maxSegmentSize: nat, base: B.Int64, cap: B.Int64, block: nat,
                 enc: Event -> seq<Byte>, dec: seq<Byte> -> Event)
      ensures Valid() && s == Init() && this.enc == enc && this.dec == dec && fresh(w) && fresh(st) && fresh(st.index)
    {
      this.enc, this.dec := enc, dec;
      w := new Log.Create(crc, maxSegmentSize);
      st := new S.Store(base, cap, block);
      s, run := Init(), [];
      new;
      EmptyHolds();
      NoSteps(Init(), true);
    }

    lemma EmptyHolds()
      requires w.Valid() && !w.closed && w.recs == [] && w.bases == [1] && w.nextLSN == 1 && s == Init()
      ensures E.Holds(w, s, enc)
    {
      hide Encode;
    }

    /** The machine goes on, and what it acknowledged stays acknowledged. */
    twostate predicate WentOn()
      reads this
    {
      old(s.granted) <= s.granted && old(run) <= run
    }

    /** Appends an event the log takes. */
    method LogEvent(e: Event, ghost a: Act)
      requires Logged() && E.Logs(s, a, e) && Enabled(s, a, true) && Appendable(enc(e)) && Ready(e)
      modifies `s, `run, w
      ensures Logged() && WentOn()
      ensures old(L.Full(w, enc(e))) ==> G.Enabled(old(s).gc, G.Rotate)
      ensures var s1 := E.Sealed(old(s), old(L.Full(w, enc(e)))); Enabled(s1, a, true) && s == Do(s1, a, true)
    {
      hide E.Holds, Run, Enabled, Do, E.Logs;
      ghost var full := L.Full(w, enc(e));
      ghost var s';
      var r;
      r, s' := E.Append(w, e, enc(e), a, enc, s);
      Onward(run, s, E.AppendActs(a, true, full), s');
      s, run := s', run + E.AppendActs(a, true, full);
    }

    /** A step that touches no bytes. */
    ghost method Remember(a: Act)
      requires Logged() && Enabled(s, a, true) && E.Unlogged(a)
      modifies `s, `run
      ensures Logged() && WentOn() && s == Do(old(s), a, true)
    {
      hide E.Holds, Run, Enabled, Do, E.Unlogged;
      E.Unseen(w, s, a, enc);
      RunOne(s, a, true);
      Onward(run, s, [a], Do(s, a, true));
      s, run := Do(s, a, true), run + [a];
    }

    /** A part of a thread's sync. */
    method Sync(t: G.Tid, part: E.Part)
      requires Logged() && Enabled(s, Inner(E.SyncAct(t, part)), true)
      modifies `s, `run, w
      ensures Logged() && WentOn() && s == Do(old(s), Inner(E.SyncAct(t, part)), true)
    {
      hide E.Holds, Run, Enabled, Do, D.Inv;
      ghost var a := Inner(E.SyncAct(t, part));
      RunOne(s, a, true);
      Onward(run, s, [a], Do(s, a, true));
      CoreOf(s);
      E.Flush(w, t, part, enc, s);
      s, run := Do(s, a, true), run + [a];
    }

    lemma CoreOf(s: Broker)
      requires D.Inv(s)
      ensures C.CoreInv(s)
    {
    }

    // ---------------------------------------------------------- operations ---

    /** Logs the one event of an operation that the store has just applied. */
    method Persist(e: Event, ghost ch: G.Ch)
      requires Logged() && SR.Unused(s, ch) && Legit(s.img, s.nextEpoch, e) && s.lock.Unlocked? && Appendable(enc(e))
        && Ready(e)
      modifies `s, `run, w
      ensures Logged() && WentOn()
      ensures s.img == Effect(old(s).img, e) && s.log == old(s).log + [e] && s.lock.Unlocked?
      ensures s.nextEpoch == if e.Lease? then old(s).nextEpoch + 1 else old(s).nextEpoch
      ensures s.calls == old(s).calls[ch := |s.log|] && s.gc.joined == old(s).gc.joined && s.gc.syncs == old(s).gc.syncs
      ensures s.issued == if e.Lease? then old(s).issued + [e.epoch] else old(s).issued
    {
      hide Legit, Effect, Run, E.Holds;
      ghost var full := L.Full(w, enc(e));
      LogEvent(e, Record(e, ch));
      RecordIs(old(s), e, ch, full);
    }

    method Submit(p: S.SubmitParams, id: Id, now: Time, ghost ch: G.Ch) returns (r: S.SubmitReply)
      requires Valid() && id !in st.jobs && SR.Unused(s, ch) && Ready(Event.Submit(S.NewJob(p, id, now)))
      modifies `s, `run, w, st, st.index
      ensures Valid() && WentOn()
      ensures r.Accepted? ==> ch in s.calls && s.calls[ch] == |s.log| && s.log == old(s).log + [Event.Submit(r.job)]
      ensures r.Duplicate? ==> r.job.spec.id in s.answered
    {
      hide Legit, Effect, Run, E.Holds, IdemExact, S.IndexHonest, S.NoneStranded;
      IdemNames(st.jobs, st.idem);
      r := st.Submit(p, id, now, Takes());
      if r.Accepted? {
        Persist(Event.Submit(r.job), ch);
      } else if r.Duplicate? {
        MemoryIs(s, Dedup(p.queue, p.key));
        Remember(Dedup(p.queue, p.key));
      }
    }

    method Ack(id: Id, epoch: nat, ghost ch: G.Ch) returns (r: S.AckReply)
      requires Valid() && SR.Unused(s, ch) && Ready(Event.Ack(id, epoch))
      modifies `s, `run, w, st, st.index
      ensures Valid() && WentOn()
      ensures r.Acked? ==> ch in s.calls && s.calls[ch] == |s.log| && s.log == old(s).log + [Event.Ack(id, epoch)]
    {
      hide Legit, Effect, Run, E.Holds, IdemExact, S.IndexHonest, S.NoneStranded;
      r := st.Ack(id, epoch, Takes());
      if r.Acked? {
        Persist(Event.Ack(id, epoch), ch);
      }
    }

    method Nack(id: Id, epoch: nat, reason: string, now: Time, draw: nat, ghost ch: G.Ch) returns (r: S.NackReply)
      requires Valid() && SR.Unused(s, ch)
      requires id in st.jobs ==> Ready(S.NackEvent(st.jobs[id], reason, now,
                                                   B.Backoff(st.jobs[id].attempt, st.backoffBase, st.backoffCap, draw)))
      modifies `s, `run, w, st, st.index
      ensures Valid() && WentOn()
      ensures r.Nacked? ==> ch in s.calls && s.calls[ch] == |s.log| && |s.log| == |old(s).log| + 1
    {
      hide Legit, Effect, Run, E.Holds, IdemExact, S.IndexHonest, S.NoneStranded, NextState, B.Backoff, B.Delay,
        B.OrDefault;
      var e := EpochReserve(0);
      if id in st.jobs {
        e := S.NackEvent(st.jobs[id], reason, now, B.Backoff(st.jobs[id].attempt, st.backoffBase, st.backoffCap, draw));
      }
      r := st.Nack(id, epoch, reason, now, draw, Takes());
      if r.Nacked? {
        Persist(e, ch);
      }
    }

    method ReplayDead(id: Id, now: Time, ghost ch: G.Ch) returns (r: S.ReplayReply)
      requires Valid() && SR.Unused(s, ch) && Ready(ReplayJob(id, now))
      modifies `s, `run, w, st, st.index
      ensures Valid() && WentOn()
      ensures r.Replayed? ==> ch in s.calls && s.calls[ch] == |s.log| && s.log == old(s).log + [ReplayJob(id, now)]
    {
      hide Legit, Effect, Run, E.Holds, IdemExact, S.IndexHonest, S.NoneStranded;
      r := st.ReplayDead(id, now, Takes());
      if r.Replayed? {
        Persist(ReplayJob(id, now), ch);
      }
    }

    method Heartbeat(id: Id, epoch: nat, now: Time, dur: int) returns (r: S.BeatReply)
      requires Valid()
      modifies `s, `run, st
      ensures Valid() && WentOn() && s.log == old(s).log
    {
      hide Run, E.Holds, IdemExact, S.IndexHonest, S.NoneStranded;
      r := st.Heartbeat(id, epoch, now, dur);
      if r.Extended? {
        MemoryIs(s, Beat(id, epoch, now + dur));
        Remember(Beat(id, epoch, now + dur));
      }
    }

    /** A token reservation: appended, synced, and only then applied. Other threads may be flushing. */
    method Reserve(e: Event, block: nat, tid: G.Tid)
      requires Logged() && s.lock.Unlocked? && 0 < block && s.img.ceiling < s.nextEpoch
      requires tid !in s.gc.loops && tid !in s.gc.syncs
      requires e == EpochReserve(s.nextEpoch + block - 1) && Appendable(enc(e)) && Ready(e)
      modifies `s, `run, w
      ensures Logged() && WentOn()
      ensures s.img == Effect(old(s).img, e) && s.log == old(s).log + [e] && s.lock.Unlocked?
        && s.nextEpoch == old(s).nextEpoch
      ensures s.calls == old(s).calls && s.gc.joined == old(s).gc.joined && s.gc.syncs == old(s).gc.syncs
      ensures s.issued == old(s).issued
    {
      hide Effect, Run, Logged, Enabled, Do, Reserved;
      ghost var a := Act.Reserve(block, tid);
      CanReserve(s, block, tid);
      LogIsKnown();
      ghost var full := L.Full(w, enc(e));
      LogEvent(e, a);
      SealedIs(old(s), full, block, tid);
      FlushClaim(block, tid, E.Sealed(old(s), full));
      ReservedIs(E.Sealed(old(s), full), block);
    }

    /** The flush of a claim just appended by s0, and its application. */
    method FlushClaim(block: nat, tid: G.Tid, ghost s0: Broker)
      requires Logged() && Enabled(s0, Act.Reserve(block, tid), true) && s == Do(s0, Act.Reserve(block, tid), true)
      requires G.LogInv(s0.gc) && !s0.gc.broken
      modifies `s, `run, w
      ensures Logged() && WentOn() && 0 < block && s == Reserved(s0, block)
    {
      hide Logged, Enabled, Do, Reserved, G.LogInv;
      ghost var s1, s2, s3, s4 := ReservePath(s0, block, tid);
      Sync(tid, E.Draining);
      assert s == s2;
      Sync(tid, E.Starting);
      assert s == s3;
      Sync(tid, E.Ending);
      assert s == s4;
      DoneIsUnlogged();
      Remember(ReserveDone);
    }

    lemma DoneIsUnlogged()
      ensures E.Unlogged(ReserveDone)
    {
    }

    lemma ReservedIs(s0: Broker, block: nat)
      requires 0 < block
      ensures var s' := Reserved(s0, block);
              var e := EpochReserve(s0.nextEpoch + block - 1);
              && s'.img == Effect(s0.img, e) && s'.log == s0.log + [e] && s'.lock == s0.lock
                && s'.nextEpoch == s0.nextEpoch
              && s'.calls == s0.calls && s'.gc.joined == s0.gc.joined && s'.gc.syncs == s0.gc.syncs
                && s'.issued == s0.issued
    {
    }

    lemma CanReserve(s: Broker, block: nat, tid: G.Tid)
      requires s.lock.Unlocked? && 0 < block && s.img.ceiling < s.nextEpoch && tid !in s.gc.loops && tid !in s.gc.syncs
      ensures Enabled(s, Act.Reserve(block, tid), true)
    {
    }

    lemma LogIsKnown()
      requires Logged()
      ensures G.LogInv(s.gc) && !s.gc.broken
    {
    }

    /** Leases the best job of a queue. Other threads may be flushing, unless a rotation would have to wait for them. */
    method Lease(queue: string, worker: string, now: Time, dur: int, ghost ch: G.Ch, tid: G.Tid)
      returns (r: S.LeaseReply)
      requires Valid() && SR.Unused(s, ch)
      requires SR.Needed(s) ==> tid !in s.gc.loops && tid !in s.gc.syncs && forall t :: !G.Flushes(s.gc, t)
      requires !SR.Needed(s) ==> forall id :: id in st.jobs ==>
                 Ready(Event.Lease(id, st.nextEpoch, worker, now + dur, st.jobs[id].attempt + 1))
      modifies `s, `run, w, st, st.index
      ensures Valid() && WentOn()
      ensures r.Granted? ==> ch in s.calls && s.calls[ch] == |s.log| && s.issued == old(s).issued + [r.job.epoch]
    {
      hide Legit, Effect, FoldFrom, Run, Logged, IdemExact, S.IndexHonest, S.NoneStranded, S.Candidate;
      var needed, block, token := st.nextEpoch > st.epochReservedUpTo, st.epochBlockSize, st.nextEpoch;
      var claimed := EpochReserve(if 0 < block then token + block - 1 else 0);
      var claim := if Appendable(enc(claimed)) then S.Flushed else S.NotAppended;
      ghost var m0, es := st.View(), st.Reservation();
      r := st.Lease(queue, worker, now, dur, claim, Takes());
      if r.Nothing? || (needed && claim.NotAppended?) {
        return;
      }
      var lease := None;
      if r.Granted? {
        var j := r.job;
        ghost var logged := Event.Lease(j.spec.id, token, worker, now + dur, m0.jobs[j.spec.id].attempt + 1);
        SR.LegitKnows(FoldFrom(m0, es), token, logged);
        LeaseSets(FoldFrom(m0, es), logged);
        lease := Some(Event.Lease(j.spec.id, token, worker, now + dur, j.attempt));
        assert lease.value == logged;
        assert !needed ==> j.spec.id in old(st.jobs) && old(Ready(logged));
      }
      LogLease(needed, claimed, block, lease, ch, tid);
    }

    /** Logs what a lease that the store has just decided costs: a reservation if needed, and the record if there is
        one. */
    method LogLease(needed: bool, claimed: Event, block: nat, lease: Option<Event>, ghost ch: G.Ch, tid: G.Tid)
      requires Logged() && s.lock.Unlocked? && SR.Unused(s, ch) && needed == SR.Needed(s)
      requires needed ==> tid !in s.gc.loops && tid !in s.gc.syncs && forall t :: !G.Flushes(s.gc, t)
      requires needed ==> 0 < block && claimed == EpochReserve(s.nextEpoch + block - 1) && Appendable(enc(claimed))
      requires lease.Some? ==>
        && lease.value.Lease? && Legit(FoldFrom(s.img, if needed then [claimed] else []), s.nextEpoch, lease.value)
        && Appendable(enc(lease.value)) && (!needed ==> Ready(lease.value))
      modifies `s, `run, w
      ensures Logged() && WentOn() && s.lock.Unlocked? && s.nextEpoch == old(s).nextEpoch + 1
      ensures var es := if needed then [claimed] else [];
              var m := FoldFrom(old(s).img, es);
              && s.log == old(s).log + es + (if lease.Some? then [lease.value] else [])
              && s.img == if lease.Some? then Effect(m, lease.value) else m
      ensures lease.Some? ==>
        ch in s.calls && s.calls[ch] == |s.log| && s.issued == old(s).issued + [lease.value.epoch]
    {
      hide Legit, Effect, FoldFrom, Run, Logged;
      if needed {
        Reserve(claimed, block, tid);
      }
      ClaimedImage(old(s).img, claimed, needed);
      if lease.Some? {
        if needed {
          assert forall t :: G.Flushes(s.gc, t) <==> G.Flushes(old(s).gc, t);
        }
        Persist(lease.value, ch);
      } else {
        MemoryIs(s, Forfeit);
        Remember(Forfeit);
      }
    }

    /** Fails every expired lease, each under its own record. A rotation in the middle would have to wait for the
        flushes under way, so there are none. */
    method ReclaimExpired(now: Time, draws: Id -> nat, ghost ch: G.Ch) returns (ok: bool, reclaimed: seq<Id>)
      requires Valid() && SR.UnusedFrom(s, ch) && forall t :: !G.Flushes(s.gc, t)
      modifies `s, `run, w, st, st.index
      ensures Valid() && WentOn()
    {
      hide Legit, Effect, FoldFrom, Run, Logged, IdemExact, S.IndexHonest, S.NoneStranded, S.TimeoutEvent;
      ghost var p := st.Sweep(now, draws);
      var n := |st.log|;
      st.StoreOwnIds();
      ok, reclaimed := st.ReclaimExpired(now, draws, Takes());
      LogSweep(st.log[n..], reclaimed, p, ch);
    }

    /** Logs the failures of a sweep that the store has just applied. */
    method LogSweep(events: seq<Event>, ghost reclaimed: seq<Id>, ghost p: S.SweepParams, ghost ch: G.Ch)
      requires Logged() && s.lock.Unlocked? && S.OwnIds(s.img.jobs) && SR.UnusedFrom(s, ch)
        && forall t :: !G.Flushes(s.gc, t)
      requires |events| == |reclaimed| && forall i :: 0 <= i < |events| ==> Appendable(enc(events[i]))
      requires forall i :: 0 <= i < |reclaimed| ==>
        reclaimed[i] in s.img.jobs && S.Expired(s.img.jobs, p.now, reclaimed[i])
      requires forall i, j :: 0 <= i < j < |reclaimed| ==> reclaimed[i] != reclaimed[j]
      requires forall i :: 0 <= i < |events| ==> events[i] == S.TimeoutEvent(s.img.jobs[reclaimed[i]], p)
      modifies `s, `run, w
      ensures Logged() && WentOn() && s.lock.Unlocked? && s.nextEpoch == old(s).nextEpoch
      ensures s.log == old(s).log + events && s.img == FoldFrom(old(s).img, events)
    {
      hide Legit, Effect, FoldFrom, Run, Logged, S.TimeoutEvent, S.Expired, SR.SweptTo, Enabled, Do;
      ghost var s0 := s;
      SR.NotYetSwept(s0, events, reclaimed, ch);
      for i := 0 to |events|
        invariant Logged() && WentOn() && SR.SweptTo(s0, events, reclaimed, i, s, ch) && s.gc.syncs == s0.gc.syncs
      {
        var e := events[i];
        SR.SweepStep(s0, events, reclaimed, i, s, ch, p);
        RecordNeeds(s, e, ch + i);
        IsTimeout(s0.img.jobs[reclaimed[i]], p);
        assert forall t :: G.Flushes(s.gc, t) <==> G.Flushes(s0.gc, t);
        ghost var s1 := s;
        Persist(e, ch + i);
        SweptSame(s0, events, reclaimed, i + 1, s1, s, ch, e);
      }
      SweptAll(s0, events, reclaimed, s, ch);
    }

    // ----------------------------------------------------- between operations ---

    /** A step of another thread: of the committer or its flush, of a snapshot, or the deletion of segments it covers.
        */
    method Background(op: E.Op)
      requires Valid() && E.May(s, w.activeSize, w.maxSegmentSize, enc, op)
      requires !op.DoAppend? && (op.DoNothing? ==> Behind(op.a))
      modifies `s, `run, w
      ensures Valid() && WentOn()
      ensures E.SameButFirst(s, E.Next(old(s), old(w.activeSize), w.maxSegmentSize, enc, op))
    {
      hide E.Holds, Run, Enabled, Do, E.May, D.Inv;
      ghost var s0, t := s, E.Next(s, w.activeSize, w.maxSegmentSize, enc, op);
      NextIs(s, op, w.activeSize, w.maxSegmentSize);
      ReachableCore();
      ghost var acts, s';
      acts, s' := E.Perform(w, op, enc, s, s);
      Onward(run, s, acts, s');
      s, run := s', run + acts;
    }

    lemma ReachableCore()
      requires Logged()
      ensures D.Inv(s) && C.CoreInv(s)
    {
      NoSteps(s, true);
      Onward(run, s, [], s);
    }

    lemma NextIs(s: Broker, op: E.Op, size: nat, max: nat)
      requires E.May(s, size, max, enc, op) && !op.DoAppend? && (op.DoNothing? ==> Behind(op.a))
      ensures var s' := E.Next(s, size, max, enc, op);
              s'.img == s.img && s'.log == s.log && s'.nextEpoch == s.nextEpoch && s'.lock == s.lock
    {
      hide Enabled, Do;
      match op
      case DoSync(t, part) => SyncIs(s, E.SyncAct(t, part));
      case DoNothing(a) => BehindIs(s, a);
      case _ =>
    }

    /** A crash cuts the active file and its buffer anywhere past the durable bytes, and the broker opens again. */
    method Restart(file: seq<Byte>, base: B.Int64, cap: B.Int64, block: nat, listed: seq<Job>, ceiling: nat,
        before: seq<Event>,
                   now: Time)
      returns (ghost kept: nat, ghost stable: nat)
      requires Valid() && L.Decodes(s.log, enc, dec)
      requires file <= w.files[w.activeBase] + w.buf
      requires |Encode(w.crc, w.recs[w.activeBase - w.bases[0]..w.durable])| <= |file|
      requires S.Lists(listed, s.snap.jobs) && ceiling == s.snap.ceiling
      requires |before| == s.snap.lsn && before <= s.log
      modifies this
      ensures Valid() && WentOn()
      ensures Enabled(old(s), Crash(kept, stable, now), true) && s == Do(old(s), Crash(kept, stable, now), true)
    {
      hide E.Holds, SR.Shows, S.Lists, L.Decodes, L.Counts, Encode, Tiles, Run, Enabled, Do, D.Inv, C.CoreInv,
        S.IndexHonest;
      ReachableCore();
      assert before == s.log[..s.snap.lsn];
      var w', st', ok;
      w', st', ok, kept, stable := E.CrashAndOpen(w, file, enc, dec, base, cap, block, listed, ceiling, before, now, s);
      ghost var a := Crash(kept, stable, now);
      RunOne(s, a, true);
      Onward(run, s, [a], Do(s, a, true));
      w, st := w', st';
      s, run := Do(s, a, true), run + [a];
    }

    // --------------------------------------------------------- acknowledgement ---

    /** What was acknowledged at any time, before any number of restarts, is in the store now; and its record is in the
        bytes under its LSN, unless a snapshot has taken its place. */
    lemma AcknowledgedIsHere(n: nat, e: Event)
      requires Valid() && (n, e) in s.granted
      ensures e.Submit? ==> e.job.spec.id in st.jobs && st.jobs[e.job.spec.id].spec == e.job.spec
      ensures e.Ack? ==> e.id in st.jobs && st.jobs[e.id].state == Done
      ensures 0 < |w.bases| && (w.bases[0] <= n ==> n < w.nextLSN && w.recs[n - w.bases[0]] == enc(e))
    {
      ReachableCore();
      GrantedRecord(s, n, e);
      D.GrantedHolds(s, n, e);
      hide D.Inv, C.CoreInv, Run, S.IndexHonest, S.NoneStranded, IdemExact;
      ShownJobs();
      HeldRecord(n);
    }

    lemma ShownJobs()
      requires SR.Shows(st, s)
      ensures st.jobs == s.img.jobs
    {
      hide S.IndexHonest, S.NoneStranded, IdemExact;
    }

    lemma HeldRecord(n: nat)
      requires E.Holds(w, s, enc) && 1 <= n <= |s.log|
      ensures 0 < |w.bases| && (w.bases[0] <= n ==> n < w.nextLSN && n - w.bases[0] < |w.recs|)
      ensures w.bases[0] <= n ==> w.recs[n - w.bases[0]] == enc(s.log[n - 1])
    {
      L.Positions(w);
      hide Tiles;
    }
  }

  lemma GrantedRecord(s: Broker, n: nat, e: Event)
    requires D.Inv(s) && (n, e) in s.granted
    ensures 1 <= n <= |s.log| && s.log[n - 1] == e
  {
    hide C.CoreInv;
    assert (n, e) in s.granted;
  }
}
