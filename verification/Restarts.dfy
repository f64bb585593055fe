/** What a restart means for the jobs that were out on lease: they may run again at once. */
module Restarts {
  import opened Jobs
  import opened Recovery
  import opened System
  import opened Core
  import opened Runs
  import D = Durability
  import F = Fencing
  import G = GroupCommit

  /** What replaying the first `kept` records of the log over the visible snapshot comes to, before leases are
      released. */
  ghost function Replayed(s: Broker, kept: nat): Image
    requires s.snap.lsn <= kept <= |s.log|
  {
    FoldFrom(Load(s.snap), s.log[s.snap.lsn..kept])
  }

  lemma CrashIs(s: Broker, kept: nat, stable: nat, now: Time)
    requires DiskInv(s) && Enabled(s, Crash(kept, stable, now), true)
    ensures s.snap.lsn <= kept <= |s.log|
    ensures Do(s, Crash(kept, stable, now), true).img == Release(Replayed(s, kept), now)
  {
    hide G.Inv, SoundLog, FoldFrom, SnapshotFits;
    assert Suffix(s.snap, s.first, s.log[..kept]) == s.log[s.snap.lsn..kept];
  }

  /** After a restart at `now` a job may run if and only if replay found it out on lease, or waiting and due. */
  lemma RunnableIff(acts: seq<Act>, s: Broker, kept: nat, stable: nat, now: Time, id: Id)
    requires Run(Init(), acts, true, s) && Enabled(s, Crash(kept, stable, now), true)
    ensures s.snap.lsn <= kept <= |s.log|
    ensures id in Replayed(s, kept).jobs ==>
      var was := Replayed(s, kept).jobs[id];
      var jobs := Do(s, Crash(kept, stable, now), true).img.jobs;
      && id in jobs && jobs[id].spec == was.spec
      && ((jobs[id].state == Pending || jobs[id].state == RetryWait) && jobs[id].eligibleAt <= now
          <==> was.state == Leased || ((was.state == Pending || was.state == RetryWait) && was.eligibleAt <= now))
  {
    hide Replayed, Run;
    D.InitInv();
    D.RunKeepsInv(Init(), acts, s);
    CrashIs(s, kept, stable, now);
    ReleaseMeans(Replayed(s, kept), now);
    hide Do, Enabled, D.Inv, CoreInv;
  }

  /** Every job out on lease is out on the same lease for a replay of the whole log. */
  ghost predicate LeasedInv(s: Broker) {
    s.snap.lsn <= |s.log| && AllLeased(Replayed(s, |s.log|).jobs, s.img.jobs)
  }

  ghost predicate AllLeased(replayed: map<Id, Job>, jobs: map<Id, Job>) {
    replayed.Keys == jobs.Keys && forall id :: id in jobs ==> SameLease(replayed[id], jobs[id])
  }

  /** The same lease, and the same fixed part. */
  ghost predicate SameLease(r: Job, j: Job) {
    && r.spec == j.spec
    && (j.state == Leased ==>
          r.state == Leased && r.attempt == j.attempt && r.epoch == j.epoch && r.leasedBy == j.leasedBy)
  }

  lemma JobKeepsLeased(r: Job, j: Job, e: Event)
    requires SameLease(r, j) && (e.Fail? ==> e.next != Leased)
    ensures SameLease(JobEffect(r, e), JobEffect(j, e))
  {
  }

  lemma EventKeepsLeased(r: Image, m: Image, e: Event)
    requires AllLeased(r.jobs, m.jobs) && (e.Fail? ==> e.next != Leased)
    ensures AllLeased(Effect(r, e).jobs, Effect(m, e).jobs)
  {
    SameKeys(r, m, e);
    hide Effect, JobEffect, SameLease;
    forall id | id in Effect(m, e).jobs
      ensures SameLease(Effect(r, e).jobs[id], Effect(m, e).jobs[id])
    {
      if id in m.jobs {
        EffectOnJob(r, e, id);
        EffectOnJob(m, e, id);
        JobKeepsLeased(r.jobs[id], m.jobs[id], e);
      } else {
        NewIsSame(r, m, e, id);
      }
    }
  }

  lemma SameKeys(r: Image, m: Image, e: Event)
    requires r.jobs.Keys == m.jobs.Keys
    ensures Effect(r, e).jobs.Keys == Effect(m, e).jobs.Keys
  {
  }

  lemma NewIsSame(r: Image, m: Image, e: Event, id: Id)
    requires r.jobs.Keys == m.jobs.Keys && id !in m.jobs && id in Effect(m, e).jobs
    ensures id in Effect(r, e).jobs && SameLease(Effect(r, e).jobs[id], Effect(m, e).jobs[id])
  {
  }

  lemma FailsSomewhere(m: Image, nextEpoch: nat, e: Event)
    requires Legit(m, nextEpoch, e)
    ensures e.Fail? ==> e.next != Leased
  {
  }

  lemma LogOneMore(s: Broker, e: Event)
    requires s.snap.lsn <= |s.log|
    ensures (s.log + [e])[s.snap.lsn..] == s.log[s.snap.lsn..] + [e]
    ensures FoldFrom(Load(s.snap), (s.log + [e])[s.snap.lsn..]) == Effect(Replayed(s, |s.log|), e)
  {
    hide Load, FoldFrom;
    assert s.log[s.snap.lsn..|s.log|] == s.log[s.snap.lsn..];
    FoldSnoc(Load(s.snap), s.log[s.snap.lsn..], e);
  }

  lemma LeasedRecord(s: Broker, e: Event, ch: G.Ch)
    requires LeasedInv(s) && Enabled(s, Record(e, ch), true)
    ensures LeasedInv(Do(s, Record(e, ch), true))
  {
    hide FoldFrom, Effect, Load, AllLeased, Legit, G.Do, G.Enabled;
    LogOneMore(s, e);
    assert e.Fail? ==> e.next != Leased by { FailsSomewhere(s.img, s.nextEpoch, e); }
    EventKeepsLeased(Replayed(s, |s.log|), s.img, e);
    assert (s.log + [e])[s.snap.lsn..|s.log| + 1] == (s.log + [e])[s.snap.lsn..];
  }

  lemma LeasedReserve(s: Broker, block: nat, tid: G.Tid)
    requires LeasedInv(s) && Enabled(s, Reserve(block, tid), true)
    ensures LeasedInv(Do(s, Reserve(block, tid), true))
  {
    hide FoldFrom, Load, AllLeased, G.Do, G.Enabled;
    var e := EpochReserve(s.nextEpoch + block - 1);
    LogOneMore(s, e);
    assert (s.log + [e])[s.snap.lsn..|s.log| + 1] == (s.log + [e])[s.snap.lsn..];
  }

  /** A new snapshot, with the records after its LSN, replays to the live jobs but for the expiry of leases. */
  lemma LeasedPublish(s: Broker)
    requires CoreInv(s) && Enabled(s, Publish, true)
    ensures LeasedInv(Do(s, Publish, true))
  {
    hide G.Inv, MemInv, SnapInv, DiskInv, FoldFrom, Written, Fold, CloseMaps, Follows, Readable;
    var n := s.cap.lsn;
    var x := Load(Snapshot(n, s.cap.ceiling, s.cap.jobs));
    var b := BaseImage(s);
    assert s.log[n..s.cap.observed] + s.log[s.cap.observed..] == s.log[n..] && s.log[n..|s.log|] == s.log[n..];
    ReadableExtends(s.cap.base, s.cap.jobs, s.cap.read, s.log[n..s.cap.observed], s.log[s.cap.observed..]);
    assert b.jobs == s.cap.base && x.jobs == s.cap.jobs by { hide DeriveIdem; }
    FuzzySnapshotConverges(b, x, s.cap.read, s.log[n..]);
    CloseIsLeased(FoldFrom(b, s.log[n..]).jobs, s.img.jobs, FoldFrom(x, s.log[n..]).jobs);
  }

  lemma CloseIsLeased(b: map<Id, Job>, live: map<Id, Job>, x: map<Id, Job>)
    requires CloseMaps(b, live) && CloseMaps(b, x)
    ensures AllLeased(x, live)
  {
    forall id | id in b
      ensures x[id] == live[id].(leaseExpiresAt := x[id].leaseExpiresAt)
    {
      assert Close(b[id], live[id]) && Close(b[id], x[id]);
    }
  }

  lemma LeasedCrash(s: Broker, kept: nat, stable: nat, now: Time)
    requires CoreInv(s) && Enabled(s, Crash(kept, stable, now), true)
    ensures LeasedInv(Do(s, Crash(kept, stable, now), true))
  {
    hide G.Inv, SoundLog, FoldFrom, SnapshotFits, SnapInv, MemInv, CapInv, Load;
    CrashIs(s, kept, stable, now);
    ReleaseMeans(Replayed(s, kept), now);
    assert s.log[..kept][s.snap.lsn..kept] == s.log[s.snap.lsn..kept];
  }

  lemma LeasedQuiet(s: Broker, a: Act)
    requires LeasedInv(s) && Enabled(s, a, true) && !a.Record? && !a.Reserve? && !a.Publish? && !a.Crash?
    ensures LeasedInv(Do(s, a, true))
  {
    hide FoldFrom, Load, G.Do, G.Enabled, InnerEnabled, Acknowledges, Complete;
  }

  lemma LeasedStep(s: Broker, a: Act)
    requires CoreInv(s) && LeasedInv(s) && Enabled(s, a, true)
    ensures LeasedInv(Do(s, a, true))
  {
    hide CoreInv, LeasedInv, Enabled, Do;
    match a
    case Record(e, ch) => LeasedRecord(s, e, ch);
    case Reserve(block, tid) => LeasedReserve(s, block, tid);
    case Publish => LeasedPublish(s);
    case Crash(kept, stable, now) => LeasedCrash(s, kept, stable, now);
    case _ => LeasedQuiet(s, a);
  }

  lemma {:induction false} RunKeepsLeased(s: Broker, acts: seq<Act>, s': Broker)
    requires CoreInv(s) && LeasedInv(s) && Run(s, acts, true, s')
    ensures CoreInv(s') && LeasedInv(s')
    decreases |acts|
  {
    hide CoreInv, LeasedInv, Enabled, Do;
    if acts != [] {
      CoreStep(s, acts[0]);
      LeasedStep(s, acts[0]);
      RunKeepsLeased(Do(s, acts[0], true), acts[1..], s');
    }
  }

  lemma NothingReplays()
    ensures LeasedInv(Init())
  {
    assert Init().log[0..0] == [];
  }

  /** Records that are not about a job leave it as it is. */
  lemma {:induction false} LeftAlone(m: Image, es: seq<Event>, more: seq<Event>, id: Id)
    requires id in FoldFrom(m, es + more).jobs && forall i :: 0 <= i < |more| ==> !About(more[i], id)
    ensures id in FoldFrom(m, es).jobs && FoldFrom(m, es + more).jobs[id] == FoldFrom(m, es).jobs[id]
    decreases |more|
  {
    if more == [] {
      assert es + more == es;
    } else {
      var front, e := more[..|more| - 1], more[|more| - 1];
      assert es + more == (es + front) + [e];
      FoldSnoc(m, es + front, e);
      NotAbout(FoldFrom(m, es + front), e, id);
      LeftAlone(m, es, front, id);
    }
  }

  lemma NotAbout(m: Image, e: Event, id: Id)
    requires !About(e, id) && id in Effect(m, e).jobs
    ensures id in m.jobs && Effect(m, e).jobs[id] == m.jobs[id]
  {
  }

  /** A job out on lease when the broker dies, none of whose records the crash loses, may run again as soon as the
      broker is back: it waits for a retry that is due at the restart, in the same queue, with the attempt charged. */
  lemma LeasedRunsAgain(acts: seq<Act>, s: Broker, kept: nat, stable: nat, now: Time, id: Id)
    requires Run(Init(), acts, true, s) && Enabled(s, Crash(kept, stable, now), true)
    requires id in s.img.jobs && s.img.jobs[id].state == Leased
    requires forall i :: kept <= i < |s.log| ==> !About(s.log[i], id)
    ensures var jobs := Do(s, Crash(kept, stable, now), true).img.jobs;
            && id in jobs && jobs[id].spec == s.img.jobs[id].spec && jobs[id].attempt == s.img.jobs[id].attempt
            && jobs[id].epoch == s.img.jobs[id].epoch && jobs[id].state == RetryWait && jobs[id].eligibleAt == now
            && jobs[id].leasedBy == "" && jobs[id].leaseExpiresAt == 0
            && jobs[id].lastError == "broker restarted while job was leased"
  {
    hide Run, Do, Enabled, FoldFrom, Load, CoreInv;
    F.InitInv();
    NothingReplays();
    RunKeepsLeased(Init(), acts, s);
    CrashOfCore(s, kept, stable, now);
    var n := s.snap.lsn;
    assert s.log[n..kept] + s.log[kept..] == s.log[n..|s.log|];
    LeftAlone(Load(s.snap), s.log[n..kept], s.log[kept..], id);
    ReleaseMeans(Replayed(s, kept), now);
  }

  lemma CrashOfCore(s: Broker, kept: nat, stable: nat, now: Time)
    requires CoreInv(s) && Enabled(s, Crash(kept, stable, now), true)
    ensures s.snap.lsn <= kept <= |s.log|
    ensures Do(s, Crash(kept, stable, now), true).img == Release(Replayed(s, kept), now)
  {
    CrashIs(s, kept, stable, now);
  }
}
