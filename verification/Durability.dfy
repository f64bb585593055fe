/** End-to-end durability: an acknowledged submission is never lost, and an acknowledged completion never undone. */
module Durability {
  import opened Jobs
  import opened Recovery
  import opened System
  import opened Core
  import G = GroupCommit

  /** Operations join the committer only after their record is in the log, and acknowledged records are durable. */
  ghost predicate CallInv(s: Broker) {
    && (forall t :: t in s.calls ==> 1 <= s.calls[t] <= |s.log|)
    && (forall t :: t in s.gc.joined ==> t in s.calls && s.calls[t] <= s.gc.joined[t])
    && (forall r :: r in s.granted ==> 1 <= r.0 <= G.Durable(s.gc) && r.0 <= |s.log| && s.log[r.0 - 1] == r.1)
  }

  lemma CallInner(s: Broker, b: G.Act)
    requires CoreInv(s) && CallInv(s) && Enabled(s, Inner(b), true)
    ensures CallInv(Do(s, Inner(b), true))
  {
    hide Do, Enabled;
    InnerStep(s, b, true);
    GcStep(s, Inner(b));
    hide CoreInv, G.Inv, G.Durable, G.Enabled;
    AcknowledgedIsDurable(s, b);
    JoinedFrom(s, b);
    hide G.Do, Acknowledges, InnerEnabled;
  }

  lemma AcknowledgedIsDurable(s: Broker, b: G.Act)
    requires G.Inv(s.gc) && CallInv(s) && InnerEnabled(s, b)
    ensures forall r :: r in Acknowledges(s, b) ==>
      1 <= r.0 <= G.Durable(s.gc) && r.0 <= |s.log| && s.log[r.0 - 1] == r.1
  {
    hide G.Inv, G.Durable;
    if b.Reply? && s.gc.loops[b.tid].ok && s.gc.loops[b.tid].batch != [] {
      G.ReplyIsEarned(s.gc, b.tid);
    }
  }

  lemma JoinedFrom(s: Broker, b: G.Act)
    requires CallInv(s) && InnerEnabled(s, b) && |s.log| == s.gc.appended
    ensures var joined := G.Do(s.gc, b).joined;
            forall t :: t in joined ==> t in s.calls && s.calls[t] <= joined[t]
  {
    JoinedGrows(s.gc, b);
    hide G.Do, G.Enabled, G.Durable;
  }

  lemma JoinedGrows(g: G.State, b: G.Act)
    requires G.Enabled(g, b)
    ensures G.Do(g, b).joined == if b.Join? then g.joined[b.ch := g.appended] else g.joined
  {
  }

  lemma CallCrash(s: Broker, kept: nat, stable: nat, now: Time)
    requires CoreInv(s) && CallInv(s) && Enabled(s, Crash(kept, stable, now), true)
    ensures CallInv(Do(s, Crash(kept, stable, now), true))
  {
    hide SoundLog, SnapInv, MemInv, CapInv, Recover;
  }

  /** What the steps outside the committer leave of its calls and of the acknowledgements. */
  lemma QuietCalls(s: Broker, a: Act)
    requires Enabled(s, a, true) && !a.Inner? && !a.Crash?
    ensures var s' := Do(s, a, true);
            && s'.gc.joined == s.gc.joined && s'.granted == s.granted
            && s'.calls == if a.Record? then s.calls[a.ch := |s.log| + 1] else s.calls
    ensures a.Record? ==> a.ch !in s.calls && |Do(s, a, true).log| == |s.log| + 1
  {
    hide G.Durable, Complete, Legit, Effect, Deliver, Native;
  }

  lemma CallQuiet(s: Broker, a: Act)
    requires CoreInv(s) && CallInv(s) && Enabled(s, a, true) && !a.Inner? && !a.Crash?
    ensures CallInv(Do(s, a, true))
  {
    LogOnlyGrows(s, a);
    QuietCalls(s, a);
    GcStep(s, a);
    hide CoreInv, Enabled, Do, G.Durable, G.Inv;
  }

  lemma CallStep(s: Broker, a: Act)
    requires CoreInv(s) && CallInv(s) && Enabled(s, a, true)
    ensures CallInv(Do(s, a, true)) && s.granted <= Do(s, a, true).granted
  {
    hide CoreInv, CallInv, Enabled;
    match a
    case Inner(b) => CallInner(s, b);
    case Crash(kept, stable, now) => CallCrash(s, kept, stable, now);
    case _ => CallQuiet(s, a);
  }

  ghost predicate Inv(s: Broker) {
    CoreInv(s) && CallInv(s)
  }

  lemma InitInv()
    ensures Inv(Init())
  {
    G.RebootInv(0, 0, 0);
    assert Init().log[..0] == [];
  }

  lemma {:induction false} RunKeepsInv(s: Broker, acts: seq<Act>, s': Broker)
    requires Inv(s) && Run(s, acts, true, s')
    ensures Inv(s') && s.granted <= s'.granted
    decreases |acts|
  {
    hide CoreInv, CallInv, Enabled, Do;
    if acts != [] {
      CoreStep(s, acts[0]);
      CallStep(s, acts[0]);
      RunKeepsInv(Do(s, acts[0], true), acts[1..], s');
    }
  }

  /** What each acknowledged record means for the state the broker has now. */
  lemma GrantedHolds(s: Broker, n: nat, e: Event)
    requires Inv(s) && (n, e) in s.granted
    ensures e.Submit? ==> e.job.spec.id in s.img.jobs && s.img.jobs[e.job.spec.id].spec == e.job.spec
    ensures e.Ack? ==> e.id in s.img.jobs && s.img.jobs[e.id].state == Done
  {
    assert (n, e) in s.granted;
    assert s.log[..|s.log|] == s.log;
    var l := Fold(s.log);
    if e.Submit? {
      SubmittedStays(s.log, n - 1, |s.log|);
      assert Weak(l.jobs[e.job.spec.id], s.img.jobs[e.job.spec.id]);
    }
    if e.Ack? {
      AckedStaysDone(s.log, n - 1, |s.log|);
      assert Weak(l.jobs[e.id], s.img.jobs[e.id]);
    }
  }

  /** Once a submission has been acknowledged its job is there in every later state of every run, through any
      interleaving, any snapshots and deletions they allow, and any number of crashes; once a completion has been
      acknowledged, the job is Done in every later state. */
  lemma AcknowledgedIsForever(before: seq<Act>, s: Broker, n: nat, e: Event, after: seq<Act>, s': Broker)
    requires Run(Init(), before, true, s) && (n, e) in s.granted && Run(s, after, true, s')
    ensures e.Submit? ==> e.job.spec.id in s'.img.jobs && s'.img.jobs[e.job.spec.id].spec == e.job.spec
    ensures e.Ack? ==> e.id in s'.img.jobs && s'.img.jobs[e.id].state == Done
    ensures n <= |s'.log| && 1 <= n && s'.log[n - 1] == e
  {
    InitInv();
    RunKeepsInv(Init(), before, s);
    RunKeepsInv(s, after, s');
    assert (n, e) in s'.granted;
    GrantedHolds(s', n, e);
  }

  /** In every reachable state, replay of any log a crash may keep, from the newest snapshot, never meets a record it
      cannot apply, and never a second job for one key. */
  lemma ReplayNeverFails(acts: seq<Act>, s: Broker, kept: nat, i: nat)
    requires Run(Init(), acts, true, s) && s.snap.lsn <= i < kept <= |s.log|
    ensures Applicable(FoldFrom(Load(s.snap), s.log[s.snap.lsn..i]), s.log[i])
  {
    hide Inv, Load, FoldFrom;
    InitInv();
    RunKeepsInv(Init(), acts, s);
    SuffixApplies(s, kept, i);
  }

  lemma SoundApplies(l: Image, v: Image, e: Event)
    requires Follows(l, v) && Sound(l, e)
    ensures Applicable(v, e)
  {
  }

  lemma SuffixApplies(s: Broker, kept: nat, i: nat)
    requires Inv(s) && s.snap.lsn <= i < kept <= |s.log|
    ensures Applicable(FoldFrom(Load(s.snap), s.log[s.snap.lsn..i]), s.log[i])
  {
    hide Load, G.Inv, MemInv, CapInv, CallInv, Follows, FoldFrom, Sound, Applicable, SoundLog;
    var n := s.snap.lsn;
    assert s.log[..n] + s.log[n..i] == s.log[..i];
    FoldConcat(EMPTY, s.log[..n], s.log[n..i]);
    FoldFollows(Fold(s.log[..n]), Load(s.snap), s.log[n..i]);
    SoundAt(s.log, i);
    SoundApplies(Fold(s.log[..i]), FoldFrom(Load(s.snap), s.log[n..i]), s.log[i]);
  }

  /** In every reachable state there is at most one job per queue and key, and idem is the map derived from the jobs. */
  lemma IdempotencyHolds(acts: seq<Act>, s: Broker)
    requires Run(Init(), acts, true, s)
    ensures IdemExact(s.img.jobs, s.img.idem)
  {
    hide Inv, IdemExact;
    InitInv();
    RunKeepsInv(Init(), acts, s);
    IdemFollows(s);
  }

  lemma IdemFollows(s: Broker)
    requires Inv(s)
    ensures IdemExact(s.img.jobs, s.img.idem)
  {
    hide G.Inv, SnapInv, CapInv, Fold, CallInv, SoundLog, IdemExact;
    FoldIdemExact(s.log);
    var l := Fold(s.log);
    forall id | id in s.img.jobs
      ensures s.img.jobs[id].spec == l.jobs[id].spec
    {
      assert Weak(l.jobs[id], s.img.jobs[id]);
    }
    SpecsSuffice(l.jobs, s.img.jobs, l.idem);
  }

  /** In every reachable state the leased set is exactly the jobs in state Leased. */
  lemma LeasedIsExact(acts: seq<Act>, s: Broker, id: Id)
    requires Run(Init(), acts, true, s)
    ensures id in s.img.leased <==> id in s.img.jobs && s.img.jobs[id].state == Leased
  {
    InitInv();
    RunKeepsInv(Init(), acts, s);
  }
}
