/** When recovery agrees with the log. A restart recovers what replaying the whole log would if and only if the visible
    snapshot fits the records the crash kept. From there on lived state and log differ only where an unlogged release
    or a heartbeat explains it if and only if what was recovered fits the records logged since. */
module Convergence {
  import opened Jobs
  import opened Recovery
  import opened System
  import opened Core
  import opened Runs
  import G = GroupCommit

  ghost predicate SnapMatches(s: Broker) {
    && s.snap.lsn <= s.covered <= |s.log|
    && Matches(Fold(s.log[..s.covered]).jobs, FoldFrom(Load(s.snap), s.log[s.snap.lsn..s.covered]).jobs)
  }

  ghost predicate CapMatches(s: Broker) {
    s.cap.Encoding? ==> s.cap.lsn <= |s.log| && Matches(Fold(s.log[..s.cap.lsn]).jobs, s.cap.base)
  }

  ghost predicate ExactInv(s: Broker) {
    s.exact ==> Matches(Fold(s.log).jobs, s.img.jobs) && SnapMatches(s) && CapMatches(s)
  }

  /** The snapshot plus any suffix that covers what it saw replays to a match of the whole log. */
  lemma ReplayMatches(s: Broker, kept: nat)
    requires DiskInv(s) && SnapMatches(s) && s.covered <= kept <= |s.log|
    ensures Matches(Fold(s.log[..kept]).jobs, FoldFrom(Load(s.snap), Suffix(s.snap, s.first, s.log[..kept])).jobs)
  {
    hide Load, Matches, SoundLog, G.Inv, FoldFrom;
    var n, m := s.snap.lsn, s.covered;
    assert Suffix(s.snap, s.first, s.log[..kept]) == s.log[n..kept];
    assert s.log[..m] + s.log[m..kept] == s.log[..kept];
    assert s.log[n..m] + s.log[m..kept] == s.log[n..kept];
    FoldConcat(EMPTY, s.log[..m], s.log[m..kept]);
    FoldConcat(Load(s.snap), s.log[n..m], s.log[m..kept]);
    FoldMatches(Fold(s.log[..m]), FoldFrom(Load(s.snap), s.log[n..m]), s.log[m..kept]);
  }

  /** The snapshot holds the jobs of the log at its LSN, under the same fixed parts. */
  lemma SnapshotSpecs(s: Broker)
    requires SnapInv(s)
    ensures SameSpecs(Fold(s.log[..s.snap.lsn]).jobs, Load(s.snap).jobs) && Load(s.snap).jobs == s.snap.jobs
  {
    hide FoldFrom, DeriveIdem;
    var l := Fold(s.log[..s.snap.lsn]).jobs;
    forall id | id in l
      ensures l[id].spec == s.snap.jobs[id].spec
    {
      assert Weak(l[id], s.snap.jobs[id]);
    }
  }

  /** What snapshot and suffix replay to matches the log that was kept if and only if the snapshot fits it. */
  lemma ReplayMatchesIff(s: Broker, kept: nat)
    requires DiskInv(s) && SnapInv(s) && s.snap.lsn <= kept <= |s.log|
    ensures Matches(Fold(s.log[..kept]).jobs, FoldFrom(Load(s.snap), Suffix(s.snap, s.first, s.log[..kept])).jobs)
       <==> SnapshotFits(s, kept)
  {
    hide SoundLog, G.Inv, FoldFrom, Load;
    SnapshotSpecs(s);
    hide Load, Matches, SoundLog, G.Inv, FoldFrom, Follows, Fits, SameSpecs;
    var n := s.snap.lsn;
    assert Suffix(s.snap, s.first, s.log[..kept]) == s.log[n..kept];
    assert s.log[..n] + s.log[n..kept] == s.log[..kept];
    FoldConcat(EMPTY, s.log[..n], s.log[n..kept]);
    FoldMatchesIff(Fold(s.log[..n]), Load(s.snap), s.log[n..kept]);
  }

  /** A crash that keeps everything the snapshot had read past leaves it fitting. */
  lemma CoveredFits(s: Broker, kept: nat)
    requires DiskInv(s) && SnapInv(s) && SnapMatches(s) && s.covered <= kept <= |s.log|
    ensures SnapshotFits(s, kept)
  {
    hide Load, Matches, SoundLog, G.Inv, FoldFrom, Fits, Suffix, SnapshotFits, Follows;
    ReplayMatches(s, kept);
    ReplayMatchesIff(s, kept);
  }

  lemma RecoverMatches(s: Broker, kept: nat, now: Time)
    requires DiskInv(s) && SnapInv(s) && SnapshotFits(s, kept)
    ensures Matches(Fold(s.log[..kept]).jobs, Recover(s.snap, s.first, s.log[..kept], now).jobs)
  {
    ReplayMatchesIff(s, kept);
    hide Load, Matches, SoundLog, G.Inv, FoldFrom, Suffix;
    ReleaseKeepsRelations(Fold(s.log[..kept]), FoldFrom(Load(s.snap), Suffix(s.snap, s.first, s.log[..kept])), now);
  }

  /** A snapshot is, together with the records it overlaps, a match of the log. */
  lemma ExactPublish(s: Broker)
    requires CoreInv(s) && ExactInv(s) && s.exact && Enabled(s, Publish, true)
    ensures SnapMatches(Do(s, Publish, true))
  {
    hide MemInv, SnapInv, SoundLog, G.Inv, FoldFrom, Matches, CloseMaps, Readable, Complete, Follows;
    var n, m := s.cap.lsn, s.cap.observed;
    var b := BaseImage(s);
    var x := Load(Snapshot(n, s.cap.ceiling, s.cap.jobs));
    var es := s.log[n..m];
    assert s.log[..n] + es == s.log[..m];
    FoldConcat(EMPTY, s.log[..n], es);
    FoldMatches(Fold(s.log[..n]), b, es);
    assert b.jobs == s.cap.base && x.jobs == s.cap.jobs by { hide DeriveIdem; }
    FuzzySnapshotConverges(b, x, s.cap.read, es);
    CloseMatches(Fold(s.log[..m]).jobs, FoldFrom(b, es).jobs, FoldFrom(x, es).jobs);
  }

  lemma ExactRecord(s: Broker, e: Event, ch: G.Ch)
    requires CoreInv(s) && ExactInv(s) && Enabled(s, Record(e, ch), true)
    ensures ExactInv(Do(s, Record(e, ch), true))
  {
    hide SnapInv, CapInv, MemInv, SoundLog, G.Inv, FoldFrom, Load, Matches;
    AppendIsSound(s, e, ch);
    SlicesStay(s, e);
    if s.exact {
      EffectMatches(Fold(s.log), s.img, e);
    }
  }

  lemma SlicesStay(s: Broker, e: Event)
    ensures s.snap.lsn <= s.covered <= |s.log| ==>
      (s.log + [e])[..s.covered] == s.log[..s.covered]
        && (s.log + [e])[s.snap.lsn..s.covered] == s.log[s.snap.lsn..s.covered]
    ensures s.cap.Encoding? && s.cap.lsn <= |s.log| ==> (s.log + [e])[..s.cap.lsn] == s.log[..s.cap.lsn]
  {
  }

  lemma ExactReserve(s: Broker, block: nat, tid: G.Tid)
    requires CoreInv(s) && ExactInv(s) && Enabled(s, Reserve(block, tid), true)
    ensures ExactInv(Do(s, Reserve(block, tid), true))
  {
    hide SnapInv, CapInv, MemInv, SoundLog, G.Inv, FoldFrom, Load, Matches;
    ReserveIsSound(s, block, tid);
    SlicesStay(s, EpochReserve(s.nextEpoch + block - 1));
  }

  lemma ExactInner(s: Broker, b: G.Act)
    requires CoreInv(s) && ExactInv(s) && Enabled(s, Inner(b), true)
    ensures ExactInv(Do(s, Inner(b), true))
  {
    GcStep(s, Inner(b));
    hide SnapInv, CapInv, MemInv, SoundLog, G.Inv, FoldFrom, Load, Matches, G.Do, G.Enabled, G.Durable;
  }

  /** A snapshot that fits what a crash keeps matches it from there on. */
  lemma SnapCrash(s: Broker, kept: nat)
    requires DiskInv(s) && SnapInv(s) && SnapshotFits(s, kept)
    ensures Matches(Fold(s.log[..kept][..kept]).jobs, FoldFrom(Load(s.snap), s.log[..kept][s.snap.lsn..kept]).jobs)
  {
    hide Load, Matches, SoundLog, G.Inv, FoldFrom, Follows, Fits;
    ReplayMatchesIff(s, kept);
    assert s.log[..kept][..kept] == s.log[..kept] && s.log[..kept][s.snap.lsn..kept] == s.log[s.snap.lsn..kept];
    assert Suffix(s.snap, s.first, s.log[..kept]) == s.log[s.snap.lsn..kept];
  }

  lemma ExactCrash(s: Broker, kept: nat, stable: nat, now: Time)
    requires CoreInv(s) && Enabled(s, Crash(kept, stable, now), true)
    ensures ExactInv(Do(s, Crash(kept, stable, now), true))
  {
    hide CapInv, MemInv, SoundLog, G.Inv, FoldFrom, Load, Matches, Recover, SnapshotFits;
    if SnapshotFits(s, kept) {
      RecoverMatches(s, kept, now);
      SnapCrash(s, kept);
    }
    hide SnapInv, DiskInv;
  }

  lemma ExactBeat(s: Broker, id: Id, epoch: nat, until: Time)
    requires CoreInv(s) && ExactInv(s) && Enabled(s, Beat(id, epoch, until), true)
    ensures ExactInv(Do(s, Beat(id, epoch, until), true))
  {
    hide SnapInv, CapInv, MemInv, SoundLog, G.Inv, FoldFrom, Load;
  }

  lemma ExactPublishes(s: Broker)
    requires CoreInv(s) && ExactInv(s) && Enabled(s, Publish, true)
    ensures ExactInv(Do(s, Publish, true))
  {
    if s.exact {
      ExactPublish(s);
    }
    hide CoreInv, SnapMatches, Fold, Matches, Complete, G.Durable;
  }

  lemma ExactCapture(s: Broker)
    requires ExactInv(s) && Enabled(s, Capture, true)
    ensures ExactInv(Do(s, Capture, true))
  {
    hide Fold, FoldFrom, Matches, Load;
    assert s.log[..|s.log|] == s.log;
  }

  lemma ExactReserveDone(s: Broker)
    requires CoreInv(s) && ExactInv(s) && Enabled(s, ReserveDone, true)
    ensures ExactInv(Do(s, ReserveDone, true))
  {
    GcStep(s, ReserveDone);
    hide CoreInv, Fold, FoldFrom, Load, Matches, G.Enabled, G.Durable, G.Do, Legit;
  }

  lemma ExactQuiet(s: Broker, a: Act)
    requires ExactInv(s) && Enabled(s, a, true) && (a.Read? || a.Truncate? || a.Forfeit? || a.Dedup?)
    ensures ExactInv(Do(s, a, true))
  {
    hide Fold, FoldFrom, Load, Matches, G.Enabled, G.Durable, G.Do, Legit;
  }

  lemma ExactStep(s: Broker, a: Act)
    requires CoreInv(s) && ExactInv(s) && Enabled(s, a, true)
    ensures ExactInv(Do(s, a, true))
  {
    hide CoreInv, ExactInv, Enabled, Do;
    match a
    case Record(e, ch) => ExactRecord(s, e, ch);
    case Reserve(block, tid) => ExactReserve(s, block, tid);
    case Inner(b) => ExactInner(s, b);
    case Crash(kept, stable, now) => ExactCrash(s, kept, stable, now);
    case Beat(id, epoch, until) => ExactBeat(s, id, epoch, until);
    case Publish => ExactPublishes(s);
    case Capture => ExactCapture(s);
    case ReserveDone => ExactReserveDone(s);
    case _ => ExactQuiet(s, a);
  }

  lemma InitInv()
    ensures CoreInv(Init()) && ExactInv(Init())
  {
    G.RebootInv(0, 0, 0);
    assert Init().log[..0] == [];
  }

  lemma {:induction false} RunKeepsInv(s: Broker, acts: seq<Act>, s': Broker)
    requires CoreInv(s) && ExactInv(s) && Run(s, acts, true, s')
    ensures CoreInv(s') && ExactInv(s')
    decreases |acts|
  {
    hide CoreInv, ExactInv, Enabled, Do;
    if acts != [] {
      CoreStep(s, acts[0]);
      ExactStep(s, acts[0]);
      RunKeepsInv(Do(s, acts[0], true), acts[1..], s');
    }
  }

  /** In particular, if the last restart found a fitting snapshot, whatever happened before, the job a broker lives
      with and the job the log folds to have the same fixed part, attempt count and token, the same state but for a
      released lease, and the same schedule where the log has one. */
  lemma LivedStateMatchesLog(acts: seq<Act>, s: Broker, id: Id)
    requires Run(Init(), acts, true, s) && s.exact
    ensures id in s.img.jobs <==> id in Fold(s.log).jobs
    ensures id in s.img.jobs ==> Strong(Fold(s.log).jobs[id], s.img.jobs[id])
  {
    InitInv();
    RunKeepsInv(Init(), acts, s);
  }

  // ------------------------------------------------- from restart to restart ---

  ghost predicate CrashFree(acts: seq<Act>) {
    forall i :: 0 <= i < |acts| ==> !acts[i].Crash?
  }

  /** What a broker that started as r has lived through since: its jobs are what its own records have made of those it
      started with, up to the expiry of running leases. */
  ghost predicate Since(r: Broker, s: Broker) {
    r.log <= s.log && CloseMaps(FoldFrom(r.img, s.log[|r.log|..]).jobs, s.img.jobs)
  }

  lemma SinceLogged(r: Broker, s: Broker, e: Event, jobs: map<Id, Job>)
    requires Since(r, s) && CloseMaps(Effect(FoldFrom(r.img, s.log[|r.log|..]), e).jobs, jobs)
    ensures r.log <= s.log + [e] && CloseMaps(FoldFrom(r.img, (s.log + [e])[|r.log|..]).jobs, jobs)
  {
    hide FoldFrom, Effect, CloseMaps;
    FoldSnoc(r.img, s.log[|r.log|..], e);
    assert (s.log + [e])[|r.log|..] == s.log[|r.log|..] + [e];
  }

  lemma SinceRecord(r: Broker, s: Broker, e: Event, ch: G.Ch)
    requires Since(r, s) && Enabled(s, Record(e, ch), true)
    ensures Since(r, Do(s, Record(e, ch), true))
  {
    hide FoldFrom, Effect, CloseMaps, Legit, G.Do, G.Enabled;
    EffectKeepsClose(FoldFrom(r.img, s.log[|r.log|..]), s.img, e);
    SinceLogged(r, s, e, Effect(s.img, e).jobs);
  }

  lemma SinceReserve(r: Broker, s: Broker, block: nat, tid: G.Tid)
    requires Since(r, s) && Enabled(s, Reserve(block, tid), true)
    ensures Since(r, Do(s, Reserve(block, tid), true))
  {
    hide FoldFrom, CloseMaps, G.Do, G.Enabled;
    SinceLogged(r, s, EpochReserve(s.nextEpoch + block - 1), s.img.jobs);
  }

  lemma SinceBeat(r: Broker, s: Broker, id: Id, epoch: nat, until: Time)
    requires Since(r, s) && Enabled(s, Beat(id, epoch, until), true)
    ensures Since(r, Do(s, Beat(id, epoch, until), true))
  {
    hide FoldFrom;
  }

  lemma SinceQuiet(r: Broker, s: Broker, a: Act)
    requires Since(r, s) && Enabled(s, a, true) && !a.Record? && !a.Reserve? && !a.Beat? && !a.Crash?
    ensures Since(r, Do(s, a, true))
  {
    hide FoldFrom, CloseMaps, G.Do, G.Enabled, InnerEnabled, Acknowledges, Complete;
  }

  lemma SinceStep(r: Broker, s: Broker, a: Act)
    requires Since(r, s) && Enabled(s, a, true) && !a.Crash?
    ensures Since(r, Do(s, a, true))
  {
    hide Since, Enabled, Do;
    match a
    case Record(e, ch) => SinceRecord(r, s, e, ch);
    case Reserve(block, tid) => SinceReserve(r, s, block, tid);
    case Beat(id, epoch, until) => SinceBeat(r, s, id, epoch, until);
    case _ => SinceQuiet(r, s, a);
  }

  lemma {:induction false} SinceRun(r: Broker, s: Broker, acts: seq<Act>, s': Broker)
    requires Since(r, s) && CrashFree(acts) && Run(s, acts, true, s')
    ensures Since(r, s')
    decreases |acts|
  {
    hide Since, Enabled, Do;
    if acts != [] {
      SinceStep(r, s, acts[0]);
      SinceRun(r, Do(s, acts[0], true), acts[1..], s');
    }
  }

  lemma SinceStart(r: Broker)
    ensures Since(r, r)
  {
    assert r.log[|r.log|..] == [];
  }

  /** The jobs of a broker are those of its log, under the same fixed parts. */
  lemma LivedSpecs(s: Broker)
    requires CoreInv(s)
    ensures SameSpecs(Fold(s.log).jobs, s.img.jobs)
  {
    hide G.Inv, SnapInv, CapInv, SoundLog, Fold, DiskInv, LockInv;
    forall id | id in s.img.jobs
      ensures Fold(s.log).jobs[id].spec == s.img.jobs[id].spec
    {
      assert Weak(Fold(s.log).jobs[id], s.img.jobs[id]);
    }
  }

  lemma CloseEitherWay(l: map<Id, Job>, a: map<Id, Job>, b: map<Id, Job>)
    requires CloseMaps(a, b)
    ensures Matches(l, a) <==> Matches(l, b)
  {
    if Matches(l, a) {
      CloseMatches(l, a, b);
    }
    if Matches(l, b) {
      assert CloseMaps(b, a) by {
        assert forall id :: id in a ==> Close(a[id], b[id]);
      }
      CloseMatches(l, b, a);
    }
  }

  /** What a broker that started as r has come to matches its log if and only if what it started with fits the records
      logged since. */
  lemma SinceMatchesIff(r: Broker, s: Broker)
    requires CoreInv(r) && Since(r, s)
    ensures Matches(Fold(s.log).jobs, s.img.jobs) <==> Fits(Fold(r.log).jobs, r.img.jobs, s.log[|r.log|..])
  {
    LivedSpecs(r);
    hide CoreInv, FoldFrom, CloseMaps, Matches, Fits, SameSpecs;
    var es := s.log[|r.log|..];
    assert r.log + es == s.log;
    FoldConcat(EMPTY, r.log, es);
    FoldMatchesIff(Fold(r.log), r.img, es);
    CloseEitherWay(Fold(s.log).jobs, FoldFrom(r.img, es).jobs, s.img.jobs);
  }

  /** When lived state and log agree: at any moment after any restart they differ only where a released lease or a
      heartbeat explains it if and only if what the restart recovered fits the records logged since. So a restart from
      a snapshot that had seen lost records diverges from its log, and every affected job is in line again as soon as a
      record about it has overwritten the attempt and the token that were wrong. */
  lemma LivedStateMatchesIff(before: seq<Act>, s: Broker, kept: nat, stable: nat, now: Time, after: seq<Act>,
      s': Broker)
    requires Run(Init(), before, true, s) && Enabled(s, Crash(kept, stable, now), true)
    requires Run(Do(s, Crash(kept, stable, now), true), after, true, s') && CrashFree(after)
    ensures s.log[..kept] <= s'.log
    ensures Matches(Fold(s'.log).jobs, s'.img.jobs)
       <==> Fits(Fold(s.log[..kept]).jobs, Recover(s.snap, s.first, s.log[..kept], now).jobs, s'.log[kept..])
  {
    hide CoreInv, ExactInv, Recover, Fits, Matches, Since, CloseMaps, FoldFrom, SnapshotFits, Run;
    InitInv();
    RunKeepsInv(Init(), before, s);
    var r := Do(s, Crash(kept, stable, now), true);
    CoreStep(s, Crash(kept, stable, now));
    SinceStart(r);
    SinceRun(r, r, after, s');
    SincePrefix(r, s');
    SinceMatchesIff(r, s');
  }

  lemma SincePrefix(r: Broker, s: Broker)
    requires Since(r, s)
    ensures r.log <= s.log
  {
  }

  // ------------------------------------------------------------ across a crash ---

  /** Crash-safety of snapshotting and deleting: at whatever point of the procedure the broker dies, recovering from
      the newest visible snapshot and the segments that are left agrees, whenever the restarts happen, with replaying
      the whole log from nothing if and only if the snapshot fits the records that were kept. */
  lemma SnapshotAndTruncateAreInvisible(acts: seq<Act>, s: Broker, kept: nat, stable: nat, at: Time)
    requires Run(Init(), acts, true, s) && Enabled(s, Crash(kept, stable, at), true)
    ensures RecoveriesAlwaysAgree(s, kept) <==> SnapshotFits(s, kept)
    ensures s.exact && s.covered <= kept ==> SnapshotFits(s, kept)
  {
    hide CoreInv, ExactInv, Recover, SnapshotFits, RecoveriesAlwaysAgree;
    InitInv();
    RunKeepsInv(Init(), acts, s);
    CrashAgreesIff(s, kept, stable, at);
  }

  ghost predicate RecoveriesAlwaysAgree(s: Broker, kept: nat)
    requires 1 <= s.first && kept <= |s.log|
  {
    forall now, later :: Agree(Fold(s.log[..kept]).jobs,
                               Recover(s.snap, s.first, s.log[..kept], now).jobs,
                               Recover(NO_SNAPSHOT, 1, s.log[..kept], later).jobs)
  }

  lemma CrashAgreesIff(s: Broker, kept: nat, stable: nat, at: Time)
    requires CoreInv(s) && ExactInv(s) && Enabled(s, Crash(kept, stable, at), true)
    ensures RecoveriesAlwaysAgree(s, kept) <==> SnapshotFits(s, kept)
    ensures s.exact && s.covered <= kept ==> SnapshotFits(s, kept)
  {
    hide FoldFrom, MemInv, CapInv, G.Inv, SoundLog, Matches, Agree, Load, SnapshotFits;
    if s.exact && s.covered <= kept {
      CoveredFits(s, kept);
    }
    ReplayMatchesIff(s, kept);
    hide SnapInv, SnapMatches;
    var log := s.log[..kept];
    NothingLoads();
    assert Suffix(NO_SNAPSHOT, 1, log) == log;
    var a, b := FoldFrom(Load(s.snap), Suffix(s.snap, s.first, log)), Fold(log);
    AlwaysAgreeIff(a, b);
    forall now
      ensures Recover(s.snap, s.first, log, now) == Release(a, now)
        && Recover(NO_SNAPSHOT, 1, log, now) == Release(b, now)
    {
    }
    hide Recover, Release, Suffix;
    assert AlwaysAgree(b.jobs, a, b) <==> RecoveriesAlwaysAgree(s, kept);
  }

  lemma NothingLoads()
    ensures Load(NO_SNAPSHOT) == EMPTY
  {
    assert Keys(map[]) == {};
    assert DeriveIdem(map[]) == map[];
    assert LeasedIds(map[]) == {};
  }

  // ------------------------------------------------------- when it does not ---

  /** A broker with one job, submitted and durable, and one token claimed. */
  ghost predicate OneWaits(s: Broker, j: Job) {
    && s.log == [Submit(j), EpochReserve(1)] && s.first == 1 && s.snap == NO_SNAPSHOT && s.exact
    && s.img.jobs == map[j.spec.id := j] && s.img.ceiling == 1 && s.nextEpoch == 1
    && s.lock.Unlocked? && s.cap.Idle? && s.calls.Keys == {0}
      && s.gc == G.Init().(appended := 2, written := 2, synced := 2)
  }

  lemma OneWaitsRun() returns (acts: seq<Act>, s: Broker)
    ensures Run(Init(), acts, true, s) && OneWaits(s, PlainJob(7, "q", 0))
  {
    hide Run;
    var j := PlainJob(7, "q", 0);
    RunOne(Init(), Record(Submit(j), 0), true);
    var s1 := Do(Init(), Record(Submit(j), 0), true);
    s := ReserveRun(s1, 1, 0);
    RunConcat(Init(), [Record(Submit(j), 0)], s1, ReserveActs(1, 0), true, s);
    acts := [Record(Submit(j), 0)] + ReserveActs(1, 0);
    assert s.log == [Submit(j), EpochReserve(1)];
    assert s.img.jobs == map[7 := j];
  }

  /** The job leased while a snapshot is being encoded, and the snapshot made visible before that lease is flushed. */
  lemma SeenRun(s: Broker, j: Job) returns (acts: seq<Act>, s': Broker)
    requires OneWaits(s, j) && Fresh(j)
    ensures Run(s, acts, true, s') && s'.exact && s'.first == 1 && |s'.log| == 3 && s'.log[..2] == s.log
    ensures s'.snap.lsn == 2 && s'.snap.jobs.Keys == {j.spec.id} && s'.snap.jobs[j.spec.id].attempt == 1
    ensures s'.gc == s.gc.(appended := 3)
  {
    hide Run;
    var id := j.spec.id;
    var lease := Record(Lease(id, 1, "w", 0, 1), 1);
    Two(s, Capture, lease, true);
    var s1 := Do(Do(s, Capture, true), lease, true);
    var scan, s2 := ReadAll(s1, id, true);
    RunConcat(s, [Capture, lease], s1, scan, true, s2);
    acts, s' := Then(s, [Capture, lease] + scan, s2, Publish, true);
    assert s'.log[..2] == s.log;
  }

  /** The condition is needed: a lease read into the snapshot and then lost with the log leaves an attempt in the
      recovered job that the log never charged. */
  lemma SeenThenLost() returns (acts: seq<Act>, s: Broker)
    ensures Run(Init(), acts, true, s) && s.exact && Enabled(s, Crash(2, 2, 0), true) && !SnapshotFits(s, 2)
    ensures forall now, later :: !Agree(Fold(s.log[..2]).jobs,
                                        Recover(s.snap, s.first, s.log[..2], now).jobs,
                                        Recover(NO_SNAPSHOT, 1, s.log[..2], later).jobs)
  {
    hide Run;
    var j := PlainJob(7, "q", 0);
    var before, s1 := OneWaitsRun();
    var more, s2 := SeenRun(s1, j);
    RunConcat(Init(), before, s1, more, true, s2);
    acts, s := before + more, s2;
    TwoRecords(j);
    var log := s.log[..2];
    assert log == [Submit(j), EpochReserve(1)] && s.log[2..2] == [] && log[..2] == log;
    NothingLoads();
    forall now
      ensures Recover(s.snap, s.first, log, now).jobs[7].attempt == 1
        && Recover(NO_SNAPSHOT, 1, log, now).jobs[7].attempt == 0
    {
      assert Suffix(s.snap, s.first, log) == [] && Suffix(NO_SNAPSHOT, 1, log) == log;
    }
    assert !FitsAt(j, s.snap.jobs[7], [], 7);
  }

  lemma TwoRecords(j: Job)
    ensures Fold([Submit(j), EpochReserve(1)]).jobs == map[j.spec.id := j]
  {
    FoldSnoc(EMPTY, [], Submit(j));
    FoldSnoc(EMPTY, [Submit(j)], EpochReserve(1));
    assert [] + [Submit(j)] == [Submit(j)] && [Submit(j)] + [EpochReserve(1)] == [Submit(j), EpochReserve(1)];
  }
}
