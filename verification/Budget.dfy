/** The retry budget: what bounds the deliveries of a job, and what a restart does to the bound. */
module Budget {
  import opened Jobs
  import opened Recovery
  import opened System
  import opened Core
  import opened Runs
  import F = Fencing
  import C = Convergence
  import G = GroupCommit

  predicate WithinBudget(j: Job) {
    match j.state
    case Pending => j.attempt <= j.spec.maxRetries
    case RetryWait => j.attempt <= j.spec.maxRetries
    case Leased => 1 <= j.attempt <= j.spec.maxRetries + 1
    case DeadLetter => j.attempt == j.spec.maxRetries + 1
    case Done => j.attempt <= j.spec.maxRetries + 1
  }

  /** How often a job can still be delivered before it is done or dead-lettered, whether or not it is within budget. */
  function Left(j: Job): nat {
    if j.state == Done || j.state == DeadLetter then 0
    else if j.attempt <= j.spec.maxRetries then j.spec.maxRetries + 1 - j.attempt
    else if j.state == Leased then 0
    else 1
  }

  /** Two steps per delivery, one for the lease and one for what ends it. */
  function Rank(j: Job): nat {
    2 * Left(j) + if j.state == Leased then 1 else 0
  }

  /** Every lease, ack, nack and timeout uses up some of what is left, so any mix of them ends in Done or DeadLetter.
      None of them brings a job within its budget or out of it. */
  lemma RankFalls(m: Image, nextEpoch: nat, e: Event)
    requires Legit(m, nextEpoch, e) && !e.Submit? && !e.ReplayJob?
    ensures e.id in Effect(m, e).jobs && Rank(Effect(m, e).jobs[e.id]) < Rank(m.jobs[e.id])
    ensures (m.jobs[e.id].state == Leased ==> 1 <= m.jobs[e.id].attempt) ==>
              (WithinBudget(Effect(m, e).jobs[e.id]) <==> WithinBudget(m.jobs[e.id]))
  {
  }

  /** A job cannot have been delivered more often, and be delivered more often still, than its budget allows; one
      submitted or replayed since the last restart has been delivered exactly as often as its attempt count says. */
  predicate Counted(j: Job, id: Id, delivered: nat, native: bool) {
    && j.spec.id == id && delivered + Left(j) <= j.spec.maxRetries + 1
    && (native ==> delivered == j.attempt && WithinBudget(j))
  }

  ghost predicate AllCounted(jobs: map<Id, Job>, delivered: map<Id, nat>, native: set<Id>) {
    && native <= jobs.Keys
    && forall id :: id in jobs ==> id in delivered && Counted(jobs[id], id, delivered[id], id in native)
  }

  ghost predicate BudgetInv(s: Broker) {
    AllCounted(s.img.jobs, s.delivered, s.native)
  }

  /** What one event does to the count of the job it is about. */
  lemma CountedSubject(m: Image, nextEpoch: nat, e: Event, delivered: nat, native: bool)
    requires Legit(m, nextEpoch, e) && !e.Submit?
    requires Counted(m.jobs[e.id], e.id, delivered, native)
    ensures Counted(JobEffect(m.jobs[e.id], e), e.id,
                    if e.ReplayJob? then 0 else if e.Lease? then delivered + 1 else delivered, native || e.ReplayJob?)
  {
  }

  lemma EventCounts(m: Image, nextEpoch: nat, e: Event, delivered: map<Id, nat>, native: set<Id>)
    requires Legit(m, nextEpoch, e) && AllCounted(m.jobs, delivered, native)
    ensures AllCounted(Effect(m, e).jobs, Deliver(delivered, e), Native(native, e))
  {
    if !e.Submit? {
      CountedSubject(m, nextEpoch, e, delivered[e.id], e.id in native);
      hide Counted;
    }
  }

  lemma BudgetRecord(s: Broker, e: Event, ch: G.Ch)
    requires BudgetInv(s) && Enabled(s, Record(e, ch), true)
    ensures BudgetInv(Do(s, Record(e, ch), true))
  {
    EventCounts(s.img, s.nextEpoch, e, s.delivered, s.native);
    hide G.Do, G.Enabled, AllCounted, Legit, Effect, Deliver;
  }

  lemma BudgetCrash(s: Broker, kept: nat, stable: nat, now: Time)
    requires CoreInv(s) && Enabled(s, Crash(kept, stable, now), true)
    ensures BudgetInv(Do(s, Crash(kept, stable, now), true))
  {
    hide Enabled, Do, CoreInv, WithinBudget;
    CoreStep(s, Crash(kept, stable, now));
    IdsMatch(Do(s, Crash(kept, stable, now), true));
    CountsRestart(s, kept, stable, now);
  }

  lemma CountsRestart(s: Broker, kept: nat, stable: nat, now: Time)
    requires Enabled(s, Crash(kept, stable, now), true)
    ensures var s' := Do(s, Crash(kept, stable, now), true);
            s'.delivered == (map id | id in s'.img.jobs :: 0) && s'.native == {}
  {
    hide Recover, SnapshotFits, G.Reboot;
  }

  /** Jobs sit under their own IDs. */
  lemma IdsMatch(s: Broker)
    requires CoreInv(s)
    ensures forall id :: id in s.img.jobs ==> s.img.jobs[id].spec.id == id
  {
    hide G.Inv, SnapInv, CapInv;
    FoldIdemExact(s.log);
    forall id | id in s.img.jobs
      ensures s.img.jobs[id].spec.id == id
    {
      assert Weak(Fold(s.log).jobs[id], s.img.jobs[id]);
    }
  }

  /** No other step touches anything but a lease's expiry. */
  lemma BudgetQuiet(s: Broker, a: Act)
    requires BudgetInv(s) && Enabled(s, a, true) && !a.Record? && !a.Crash?
    ensures BudgetInv(Do(s, a, true))
  {
    hide G.Do, G.Enabled, InnerEnabled, Acknowledges, Complete, WithinBudget, Left;
    if a.Beat? {
      assert Counted(s.img.jobs[a.id], a.id, s.delivered[a.id], a.id in s.native);
      SameCount(s.img.jobs[a.id], a.until);
    }
  }

  lemma SameCount(j: Job, until: Time)
    ensures Left(j.(leaseExpiresAt := until)) == Left(j) && WithinBudget(j.(leaseExpiresAt := until)) == WithinBudget(j)
  {
  }

  lemma BudgetStep(s: Broker, a: Act)
    requires CoreInv(s) && BudgetInv(s) && Enabled(s, a, true)
    ensures BudgetInv(Do(s, a, true))
  {
    hide CoreInv, BudgetInv, Enabled, Do;
    match a
    case Record(e, ch) => BudgetRecord(s, e, ch);
    case Crash(kept, stable, now) => BudgetCrash(s, kept, stable, now);
    case _ => BudgetQuiet(s, a);
  }

  lemma InitInv()
    ensures CoreInv(Init()) && BudgetInv(Init())
  {
    F.InitInv();
  }

  lemma {:induction false} RunKeepsInv(s: Broker, acts: seq<Act>, s': Broker)
    requires CoreInv(s) && BudgetInv(s) && Run(s, acts, true, s')
    ensures CoreInv(s') && BudgetInv(s')
    decreases |acts|
  {
    hide CoreInv, BudgetInv, Enabled, Do;
    if acts != [] {
      CoreStep(s, acts[0]);
      BudgetStep(s, acts[0]);
      RunKeepsInv(Do(s, acts[0], true), acts[1..], s');
    }
  }

  /** In every reachable state: since its submission, its replay or the last restart, no job, carried over or not, has
      been delivered more than maxRetries + 1 times. Those submitted or replayed since the restart are within their
      budget. */
  lemma DeliveriesAreBounded(acts: seq<Act>, s: Broker, id: Id)
    requires Run(Init(), acts, true, s) && id in s.img.jobs
    ensures id in s.delivered && s.delivered[id] <= s.img.jobs[id].spec.maxRetries + 1
    ensures id in s.native ==> WithinBudget(s.img.jobs[id]) && s.delivered[id] == s.img.jobs[id].attempt
  {
    InitInv();
    RunKeepsInv(Init(), acts, s);
  }

  // -------------------------------------------------------------- restarts ---

  /** Releasing a job takes it out of its budget exactly when it was out on its last delivery. */
  lemma ReleaseKeepsBudgetIff(j: Job, now: Time)
    requires WithinBudget(j)
    ensures WithinBudget(Released(j, now)) <==> !(j.state == Leased && j.attempt == j.spec.maxRetries + 1)
  {
  }

  /** The same of every restart whose snapshot fits, in terms of what the log that was kept says of the job. */
  lemma RestartKeepsBudgetIff(acts: seq<Act>, s: Broker, kept: nat, stable: nat, now: Time, id: Id)
    requires Run(Init(), acts, true, s) && Enabled(s, Crash(kept, stable, now), true) && SnapshotFits(s, kept)
    requires id in Fold(s.log[..kept]).jobs && WithinBudget(Fold(s.log[..kept]).jobs[id])
    ensures var l := Fold(s.log[..kept]).jobs[id];
            var jobs := Do(s, Crash(kept, stable, now), true).img.jobs;
            id in jobs && (WithinBudget(jobs[id]) <==> !(l.state == Leased && l.attempt == l.spec.maxRetries + 1))
  {
    hide Recover, SnapshotFits, Fold, Run;
    var acts', s' := Then(Init(), acts, s, Crash(kept, stable, now), true);
    C.LivedStateMatchesLog(acts', s', id);
    F.RecoveredIsUnleased(s, kept, now);
  }

  /** A broker just restarted over everything it ever logged, in which job 7, which allows no retries, waits for its
      next delivery after n of them, the only ones there have been. */
  ghost predicate Waits(s: Broker, n: nat) {
    && s.exact && s.snap == NO_SNAPSHOT && s.first == 1 && s.lock.Unlocked? && s.calls == map[] && s.cap.Idle?
    && s.gc == G.Reboot(0, |s.log|, |s.log|) && s.img.ceiling < s.nextEpoch
    && |s.issued| == n && s.img.jobs.Keys == {7} && Leasable(s.img.jobs[7].state)
    && s.img.jobs[7].attempt == n && s.img.jobs[7].spec.maxRetries == 0
  }

  /** A broker whose whole log is durable restarts with its jobs as they were, but released. */
  lemma Restarted(acts: seq<Act>, s: Broker, id: Id) returns (acts': seq<Act>, s': Broker)
    requires Run(Init(), acts, true, s) && s.exact && s.snap == NO_SNAPSHOT && s.first == 1 && s.gc.base == 0
    requires G.Durable(s.gc) == s.gc.written == s.gc.appended == |s.log| && id in s.img.jobs
    ensures Run(Init(), acts', true, s') && s' == Do(s, Crash(|s.log|, |s.log|, 0), true) && s'.exact && s'.log == s.log
    ensures s'.img.jobs.Keys == s.img.jobs.Keys && s'.img.jobs[id].spec == s.img.jobs[id].spec
      && s'.img.jobs[id].attempt == s.img.jobs[id].attempt
    ensures s'.img.jobs[id].state == if s.img.jobs[id].state == Leased then RetryWait else s.img.jobs[id].state
  {
    hide Run, Recover, Fold;
    var n := |s.log|;
    acts', s' := Then(Init(), acts, s, Crash(n, n, 0), true);
    assert s.log[..n] == s.log && s.log[..0] == [];
    NothingFits(s.log[0..n]);
    forall x
      ensures x in s.img.jobs <==> x in s'.img.jobs
    {
      C.LivedStateMatchesLog(acts, s, x);
      C.LivedStateMatchesLog(acts', s', x);
    }
    C.LivedStateMatchesLog(acts, s, id);
    C.LivedStateMatchesLog(acts', s', id);
    F.RecoveredIsUnleased(s, n, 0);
  }

  lemma NothingFits(es: seq<Event>)
    ensures Fits(Fold([]).jobs, NO_SNAPSHOT.jobs, es)
  {
  }

  lemma FirstWaits() returns (acts: seq<Act>, s: Broker)
    ensures Run(Init(), acts, true, s) && Waits(s, 0)
  {
    hide Run, Recover, Fold;
    var submit := Record(Submit(PlainJob(7, "q", 0)), 0);
    RunOne(Init(), submit, true);
    var s1 := Do(Init(), submit, true);
    var more, s2 := LoneCommit(s1, 0);
    RunConcat(Init(), [submit], s1, more, true, s2);
    acts, s := Restarted([submit] + more, s2, 7);
  }

  /** Leased once more, flushed, and restarted. */
  lemma OneMore(acts: seq<Act>, s: Broker, n: nat) returns (acts': seq<Act>, s': Broker)
    requires Run(Init(), acts, true, s) && Waits(s, n)
    ensures Run(Init(), acts', true, s') && Waits(s', n + 1)
  {
    hide Run, Recover, Fold;
    var s1 := ReserveRun(s, 1, 0);
    RunConcat(Init(), acts, s, ReserveActs(1, 0), true, s1);
    var lease := Record(Lease(7, s.nextEpoch, "w", 0, n + 1), 0);
    var acts2, s2 := Then(Init(), acts + ReserveActs(1, 0), s1, lease, true);
    var commit, s3 := LoneCommit(s2, 0);
    RunConcat(Init(), acts2, s2, commit, true, s3);
    acts', s' := Restarted(acts2 + commit, s3, 7);
  }

  /** No number bounds the deliveries of a job across restarts: a job that allows no retries can be handed out any
      number of times, each under its own token, if a restart cuts every one of them short. */
  lemma {:induction false} RestartsOutrunTheBudget(n: nat) returns (acts: seq<Act>, s: Broker)
    ensures Run(Init(), acts, true, s) && Waits(s, n)
  {
    hide Waits, Run;
    if n == 0 {
      acts, s := FirstWaits();
    } else {
      var acts1, s1 := RestartsOutrunTheBudget(n - 1);
      acts, s := OneMore(acts1, s1, n - 1);
    }
  }
}
