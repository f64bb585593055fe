/** What every step of the broker keeps: the log stays sound, memory follows the log, and the visible snapshot is a
    possible state of the log however its fields were gathered. */
module Core {
  import opened Jobs
  import opened Recovery
  import opened System
  import G = GroupCommit

  // ---------------------------------------------------------- the disk ---

  ghost predicate DiskInv(s: Broker) {
    && SoundLog(s.log) && |s.log| == s.gc.appended && G.Inv(s.gc)
    && 1 <= s.first <= s.snap.lsn + 1 && s.snap.lsn <= G.Durable(s.gc)
  }

  /** The newest visible snapshot, whenever its fields were read, is a possible state of the log at its LSN. */
  ghost predicate SnapInv(s: Broker) {
    && s.snap.lsn <= |s.log|
    && Follows(Fold(s.log[..s.snap.lsn]), Load(s.snap))
    && s.snap.ceiling == Fold(s.log[..s.snap.lsn]).ceiling
  }

  ghost predicate LockInv(s: Broker) {
    match s.lock
    case Unlocked => s.img.ceiling == Fold(s.log).ceiling
    case Reserving(tid, upTo) =>
      && 0 < |s.log| && s.log[|s.log| - 1] == EpochReserve(upTo)
      && s.img.ceiling == Fold(s.log[..|s.log| - 1]).ceiling
      && tid !in s.gc.loops
      && (tid in s.gc.syncs && !s.gc.syncs[tid].Failed? ==> s.gc.syncs[tid].target == |s.log|)
  }

  ghost predicate MemInv(s: Broker) {
    Follows(Fold(s.log), s.img) && s.img.leased == LeasedIds(s.img.jobs) && LockInv(s)
  }

  ghost predicate CapInv(s: Broker) {
    s.cap.Encoding? ==>
      && s.snap.lsn <= s.cap.lsn <= s.cap.observed <= |s.log|
      && s.cap.ceiling == Fold(s.log[..s.cap.lsn]).ceiling
      && Follows(Fold(s.log[..s.cap.lsn]), BaseImage(s))
      && CloseMaps(FoldFrom(BaseImage(s), s.log[s.cap.lsn..]).jobs, s.img.jobs)
      && Readable(s.cap.base, s.cap.jobs, s.cap.read, s.log[s.cap.lsn..s.cap.observed])
  }

  ghost function BaseImage(s: Broker): Image
    requires s.cap.Encoding? && s.cap.lsn <= |s.log|
  {
    Image(s.cap.base, Fold(s.log[..s.cap.lsn]).idem, {}, s.cap.ceiling)
  }

  ghost predicate CoreInv(s: Broker) {
    DiskInv(s) && SnapInv(s) && MemInv(s) && CapInv(s)
  }

  lemma DurableWithinLog(g: G.State)
    requires G.Inv(g)
    ensures g.base <= G.Durable(g) <= g.written <= g.appended
  {
  }

  /** A fresh record is sound for the log because the lived state and the folded one can only differ in ways that leave
      the same events possible. */
  lemma LegitIsSound(l: Image, v: Image, nextEpoch: nat, e: Event)
    requires Follows(l, v) && Legit(v, nextEpoch, e)
    ensures Sound(l, e)
  {
    if !e.Submit? {
      assert Weak(l.jobs[e.id], v.jobs[e.id]);
    }
  }

  lemma GcStep(s: Broker, a: Act)
    requires DiskInv(s) && Enabled(s, a, true) && !a.Crash?
    ensures G.Inv(Do(s, a, true).gc) && G.Durable(s.gc) <= G.Durable(Do(s, a, true).gc)
    ensures |Do(s, a, true).log| == Do(s, a, true).gc.appended
  {
    hide G.Inv;
    var b := match a
      case Record(_, _) => G.Append
      case Reserve(_, _) => G.Append
      case ReserveDone => G.Return(s.lock.tid)
      case Inner(b) => b
      case _ => G.Append;
    G.StepKeepsInv(s.gc, b);
    G.DurableGrows(s.gc, b);
  }

  lemma AppendIsSound(s: Broker, e: Event, ch: G.Ch)
    requires CoreInv(s) && Enabled(s, Record(e, ch), true)
    ensures SoundLog(s.log + [e]) && Fold(s.log + [e]) == Effect(Fold(s.log), e)
  {
    LegitIsSound(Fold(s.log), s.img, s.nextEpoch, e);
    SoundSnoc(s.log, e);
  }

  lemma ReserveIsSound(s: Broker, block: nat, tid: G.Tid)
    requires CoreInv(s) && Enabled(s, Reserve(block, tid), true)
    ensures var e := EpochReserve(s.nextEpoch + block - 1);
            SoundLog(s.log + [e]) && Fold(s.log + [e]) == Effect(Fold(s.log), e)
  {
    SoundSnoc(s.log, EpochReserve(s.nextEpoch + block - 1));
  }

  lemma DiskStep(s: Broker, a: Act)
    requires CoreInv(s) && Enabled(s, a, true)
    ensures DiskInv(Do(s, a, true))
  {
    hide G.Inv, G.Enabled, G.Do, SnapInv, MemInv, SoundLog, Legit, Effect, Recover, Follows, CloseMaps, Readable;
    match a
    case Crash(kept, stable, _) =>
      SoundPrefix(s.log, kept);
      G.RebootInv(s.gc.base, stable, kept);
    case Record(e, ch) =>
      GcStep(s, a);
      AppendIsSound(s, e, ch);
    case Reserve(block, tid) =>
      GcStep(s, a);
      ReserveIsSound(s, block, tid);
    case ReserveDone => GcStep(s, a);
    case Inner(_) => GcStep(s, a);
    case _ =>
  }

  // ------------------------------------------------------ the snapshot ---

  lemma DoneIsFinal(m: Image, e: Event, id: Id)
    requires Sound(m, e) && id in m.jobs && m.jobs[id].state == Done
    ensures id in Effect(m, e).jobs && Effect(m, e).jobs[id].state == Done && !Writes(e, id, FState)
  {
  }

  /** Nothing is ever logged about a job that is Done. */
  lemma {:induction false} DoneIsUntouched(log: seq<Event>, n: nat, m: nat, id: Id)
    requires SoundLog(log) && n <= m <= |log| && id in Fold(log[..n]).jobs && Fold(log[..n]).jobs[id].state == Done
    ensures id in Fold(log[..m]).jobs && Fold(log[..m]).jobs[id].state == Done
    ensures !Written(log[n..m], id, FState)
    decreases m
  {
    hide Fold, Effect, Writes, Sound;
    if n < m {
      DoneIsUntouched(log, n, m - 1, id);
      FoldNext(log, m - 1);
      DoneIsFinal(Fold(log[..m - 1]), log[m - 1], id);
      assert log[n..m] == log[n..m - 1] + [log[m - 1]];
      assert forall i :: 0 <= i < m - 1 - n ==> log[n..m][i] == log[n..m - 1][i];
    }
  }

  lemma PublishStep(s: Broker)
    requires CoreInv(s) && Enabled(s, Publish, true)
    ensures SnapInv(Do(s, Publish, true))
  {
    hide G.Inv, MemInv, CloseMaps, DeriveIdem, FoldFrom, Written;
    var l := Fold(s.log[..s.cap.lsn]);
    var snap := Snapshot(s.cap.lsn, s.cap.ceiling, s.cap.jobs);
    forall id | id in l.jobs
      ensures Weak(l.jobs[id], snap.jobs[id])
    {
      assert Weak(l.jobs[id], s.cap.base[id]);
      if l.jobs[id].state == Done {
        DoneIsUntouched(s.log, s.cap.lsn, s.cap.observed, id);
        assert (id, FState) in s.cap.read;
      }
    }
    SoundPrefix(s.log, s.cap.lsn);
    FoldIdemExact(s.log[..s.cap.lsn]);
    LoadedIdemIsExact(snap, l);
  }

  /** Only a crash shortens the log, and only a publication changes the visible snapshot. */
  lemma LogOnlyGrows(s: Broker, a: Act)
    requires Enabled(s, a, true)
    ensures !a.Publish? ==> Do(s, a, true).snap == s.snap
    ensures if a.Crash? then a.kept <= |s.log| && Do(s, a, true).log == s.log[..a.kept] else s.log <= Do(s, a, true).log
  {
    hide G.Enabled, G.Do, G.Durable, InnerEnabled, Acknowledges, Complete, Legit, Effect, Recover, SnapshotFits,
      Deliver, Native;
  }

  lemma KeepsDurable(s: Broker, kept: nat, stable: nat, now: Time)
    requires Enabled(s, Crash(kept, stable, now), true)
    ensures G.Durable(s.gc) <= stable <= kept <= |s.log|
  {
  }

  lemma SnapStep(s: Broker, a: Act)
    requires CoreInv(s) && Enabled(s, a, true)
    ensures SnapInv(Do(s, a, true))
  {
    if a.Publish? {
      PublishStep(s);
    } else {
      LogOnlyGrows(s, a);
      if a.Crash? {
        KeepsDurable(s, a.kept, a.stable, a.now);
      }
      hide G.Inv, MemInv, CapInv, SoundLog, Follows, FoldFrom, Load, Enabled, Do;
      assert Do(s, a, true).log[..s.snap.lsn] == s.log[..s.snap.lsn];
    }
  }

  // --------------------------------------------------------- the memory ---

  /** Recovery from the snapshot and the records after it lands on a possible state of the log that was kept. */
  lemma RecoverFollows(s: Broker, kept: nat, now: Time)
    requires DiskInv(s) && SnapInv(s) && s.snap.lsn <= kept <= |s.log|
    ensures Follows(Fold(s.log[..kept]), Recover(s.snap, s.first, s.log[..kept], now))
    ensures Recover(s.snap, s.first, s.log[..kept], now).ceiling == Fold(s.log[..kept]).ceiling
  {
    hide Load, Follows, SoundLog, G.Inv;
    var n := s.snap.lsn;
    var es := s.log[n..kept];
    assert Suffix(s.snap, s.first, s.log[..kept]) == es;
    assert s.log[..n] + es == s.log[..kept];
    FoldConcat(EMPTY, s.log[..n], es);
    FoldFollows(Fold(s.log[..n]), Load(s.snap), es);
    LoadCeiling(s.snap);
    FoldCeiling(Fold(s.log[..n]), Load(s.snap), es);
    ReleaseKeepsRelations(Fold(s.log[..kept]), FoldFrom(Load(s.snap), es), now);
  }

  lemma LoadCeiling(snap: Snapshot)
    ensures Load(snap).ceiling == snap.ceiling
  {
  }

  lemma MemRecord(s: Broker, e: Event, ch: G.Ch)
    requires CoreInv(s) && Enabled(s, Record(e, ch), true)
    ensures MemInv(Do(s, Record(e, ch), true))
  {
    hide G.Inv, G.Enabled, G.Do, SnapInv, CapInv, SoundLog, FoldFrom;
    AppendIsSound(s, e, ch);
    EffectFollows(Fold(s.log), s.img, e);
    EffectKeepsLeased(s.img, s.nextEpoch, e);
  }

  lemma MemReserve(s: Broker, block: nat, tid: G.Tid)
    requires CoreInv(s) && Enabled(s, Reserve(block, tid), true)
    ensures MemInv(Do(s, Reserve(block, tid), true))
  {
    hide G.Inv, SnapInv, CapInv, SoundLog, FoldFrom;
    ReserveIsSound(s, block, tid);
    var e := EpochReserve(s.nextEpoch + block - 1);
    assert (s.log + [e])[..|s.log|] == s.log;
  }

  lemma MemReserveDone(s: Broker)
    requires CoreInv(s) && Enabled(s, ReserveDone, true)
    ensures MemInv(Do(s, ReserveDone, true))
  {
    hide G.Inv, SnapInv, CapInv, SoundLog, FoldFrom;
    var n := |s.log| - 1;
    FoldNext(s.log, n);
    assert s.log[..n + 1] == s.log;
  }

  /** A thread reserving tokens is no flush loop, and once it has drained the buffer its target is the whole log. */
  ghost predicate OnTarget(g: G.State, tid: G.Tid, n: nat) {
    tid !in g.loops && (tid in g.syncs && !g.syncs[tid].Failed? ==> g.syncs[tid].target == n)
  }

  /** No step of the committer takes it off its target. */
  lemma TargetStays(g: G.State, b: G.Act, tid: G.Tid)
    requires G.Enabled(g, b) && !b.Append? && (b.Join? ==> b.tid != tid) && OnTarget(g, tid, g.appended)
    ensures OnTarget(G.Do(g, b), tid, g.appended)
  {
  }

  lemma LockInner(s: Broker, b: G.Act)
    requires LockInv(s) && |s.log| == s.gc.appended && InnerEnabled(s, b)
    ensures LockInv(s.(gc := G.Do(s.gc, b)))
  {
    hide Fold, G.Do, G.Enabled;
    if s.lock.Reserving? {
      TargetStays(s.gc, b, s.lock.tid);
    }
  }

  lemma MemInner(s: Broker, b: G.Act)
    requires CoreInv(s) && Enabled(s, Inner(b), true)
    ensures MemInv(Do(s, Inner(b), true))
  {
    hide Enabled, Do, InnerEnabled, Fold, Follows, G.Do, G.Inv, SoundLog;
    InnerStep(s, b, true);
    LockInner(s, b);
    SameLock(s, b);
    hide SnapInv, CapInv, LockInv, Acknowledges;
  }

  lemma SameLock(s: Broker, b: G.Act)
    requires InnerEnabled(s, b)
    ensures LockInv(Do(s, Inner(b), true)) == LockInv(s.(gc := G.Do(s.gc, b)))
  {
    hide Fold, G.Do, G.Enabled, Acknowledges;
  }

  lemma MemCrash(s: Broker, kept: nat, stable: nat, now: Time)
    requires CoreInv(s) && Enabled(s, Crash(kept, stable, now), true)
    ensures MemInv(Do(s, Crash(kept, stable, now), true))
  {
    hide G.Inv, SnapInv, CapInv, SoundLog, FoldFrom, Follows;
    RecoverFollows(s, kept, now);
  }

  lemma MemQuiet(s: Broker, a: Act)
    requires CoreInv(s) && Enabled(s, a, true) && (a.Beat? || a.Capture? || a.Read? || a.Publish? || a.Truncate?
      || a.Forfeit? || a.Dedup?)
    ensures MemInv(Do(s, a, true))
  {
    hide G.Inv, SnapInv, CapInv, SoundLog, FoldFrom;
  }

  lemma MemStep(s: Broker, a: Act)
    requires CoreInv(s) && Enabled(s, a, true)
    ensures MemInv(Do(s, a, true))
  {
    hide CoreInv, MemInv, Enabled, Do;
    match a
    case Record(e, ch) => MemRecord(s, e, ch);
    case Reserve(block, tid) => MemReserve(s, block, tid);
    case ReserveDone => MemReserveDone(s);
    case Inner(b) => MemInner(s, b);
    case Crash(kept, stable, now) => MemCrash(s, kept, stable, now);
    case _ => MemQuiet(s, a);
  }

  // ------------------------------------------------ the snapshot underway ---

  lemma CapLogged(s: Broker, e: Event, img: Image)
    requires CapInv(s) && s.cap.Encoding?
    requires CloseMaps(Effect(FoldFrom(BaseImage(s), s.log[s.cap.lsn..]), e).jobs, img.jobs)
    ensures CapInv(s.(log := s.log + [e], img := img))
  {
    hide FoldFrom, Follows, Readable;
    var n := s.cap.lsn;
    assert (s.log + [e])[n..] == s.log[n..] + [e];
    assert (s.log + [e])[..n] == s.log[..n];
    assert (s.log + [e])[n..s.cap.observed] == s.log[n..s.cap.observed];
    FoldSnoc(BaseImage(s), s.log[n..], e);
    assert BaseImage(s.(log := s.log + [e], img := img)) == BaseImage(s);
  }

  lemma CapRecord(s: Broker, e: Event, ch: G.Ch)
    requires CoreInv(s) && Enabled(s, Record(e, ch), true)
    ensures CapInv(Do(s, Record(e, ch), true))
  {
    hide G.Inv, G.Enabled, G.Do, SnapInv, MemInv, SoundLog, FoldFrom, Follows, Readable;
    if s.cap.Encoding? {
      EffectKeepsClose(FoldFrom(BaseImage(s), s.log[s.cap.lsn..]), s.img, e);
      CapLogged(s, e, Effect(s.img, e));
    }
  }

  lemma CapReserve(s: Broker, block: nat, tid: G.Tid)
    requires CoreInv(s) && Enabled(s, Reserve(block, tid), true)
    ensures CapInv(Do(s, Reserve(block, tid), true))
  {
    hide G.Inv, G.Enabled, G.Do, SnapInv, MemInv, SoundLog, FoldFrom, Follows, Readable;
    if s.cap.Encoding? {
      CapLogged(s, EpochReserve(s.nextEpoch + block - 1), s.img);
    }
  }

  lemma CapRead(s: Broker, id: Id, f: Field)
    requires CoreInv(s) && Enabled(s, Read(id, f), true)
    ensures CapInv(Do(s, Read(id, f), true))
  {
    hide G.Inv, SnapInv, MemInv, SoundLog, FoldFrom, Follows, CloseMaps, Readable;
    var n := s.cap.lsn;
    var b := BaseImage(s);
    assert s.log[n..s.cap.observed] + s.log[s.cap.observed..] == s.log[n..];
    ReadableExtends(s.cap.base, s.cap.jobs, s.cap.read, s.log[n..s.cap.observed], s.log[s.cap.observed..]);
    ReadKeepsReadable(b, s.cap.jobs, s.cap.read, s.log[n..], s.img.jobs, id, f);
    assert s.log[n..|s.log|] == s.log[n..];
    assert BaseImage(Do(s, Read(id, f), true)) == b;
  }

  lemma CapCapture(s: Broker)
    requires CoreInv(s) && Enabled(s, Capture, true)
    ensures CapInv(Do(s, Capture, true))
  {
    hide G.Inv, SnapInv, SoundLog;
    DurableWithinLog(s.gc);
    var n := |s.log|;
    assert s.log[..n] == s.log && s.log[n..] == [] && s.log[n..n] == [];
  }

  lemma CapBeat(s: Broker, id: Id, epoch: nat, until: Time)
    requires CoreInv(s) && Enabled(s, Beat(id, epoch, until), true)
    ensures CapInv(Do(s, Beat(id, epoch, until), true))
  {
    hide G.Inv, SnapInv, MemInv, SoundLog, FoldFrom, Follows, Readable;
  }

  lemma CapQuiet(s: Broker, a: Act)
    requires CoreInv(s) && Enabled(s, a, true)
    requires a.ReserveDone? || a.Inner? || a.Publish? || a.Truncate? || a.Forfeit? || a.Dedup? || a.Crash?
    ensures CapInv(Do(s, a, true))
  {
    hide G.Inv, G.Enabled, G.Do, SnapInv, MemInv, SoundLog, FoldFrom, Follows, Readable, CloseMaps;
  }

  lemma CapStep(s: Broker, a: Act)
    requires CoreInv(s) && Enabled(s, a, true)
    ensures CapInv(Do(s, a, true))
  {
    hide CoreInv, CapInv, Enabled, Do;
    match a
    case Beat(id, epoch, until) => CapBeat(s, id, epoch, until);
    case Record(e, ch) => CapRecord(s, e, ch);
    case Reserve(block, tid) => CapReserve(s, block, tid);
    case Read(id, f) => CapRead(s, id, f);
    case Capture => CapCapture(s);
    case _ => CapQuiet(s, a);
  }

  lemma CoreStep(s: Broker, a: Act)
    requires CoreInv(s) && Enabled(s, a, true)
    ensures CoreInv(Do(s, a, true))
  {
    hide DiskInv, SnapInv, MemInv, CapInv;
    DiskStep(s, a);
    SnapStep(s, a);
    MemStep(s, a);
    CapStep(s, a);
  }
}
