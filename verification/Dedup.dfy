/** What a deduplicated submission is told. It is answered without a flush, so it is worth what the original submission
    is worth at that moment. */
module Dedup {
  import opened Jobs
  import opened Recovery
  import opened System
  import opened Core
  import opened Runs
  import D = Durability
  import G = GroupCommit

  lemma DurableStep(s: Broker, a: Act)
    requires CoreInv(s) && Enabled(s, a, true)
    ensures var s' := Do(s, a, true);
            var d := G.Durable(s.gc);
            d <= |s.log| && d <= |s'.log| && s'.log[..d] == s.log[..d] && d <= G.Durable(s'.gc)
  {
    DurableIsLogged(s);
    LogOnlyGrows(s, a);
    if a.Crash? {
      KeepsDurable(s, a.kept, a.stable, a.now);
      CrashIsReboot(s, a.kept, a.stable, a.now);
    } else {
      GcStep(s, a);
    }
    hide CoreInv, Enabled, Do, G.Durable;
  }

  lemma CrashIsReboot(s: Broker, kept: nat, stable: nat, now: Time)
    requires Enabled(s, Crash(kept, stable, now), true)
    ensures s.gc.base <= stable <= kept && Do(s, Crash(kept, stable, now), true).gc == G.Reboot(s.gc.base, stable, kept)
    ensures G.Durable(G.Reboot(s.gc.base, stable, kept)) == stable
  {
    hide Recover, SnapshotFits;
  }

  /** Durable records are in every later log. */
  lemma {:induction false} DurableStays(s: Broker, acts: seq<Act>, s': Broker, n: nat)
    requires CoreInv(s) && n <= G.Durable(s.gc) && Run(s, acts, true, s')
    ensures CoreInv(s') && n <= |s.log| && n <= |s'.log| && s'.log[..n] == s.log[..n]
    decreases |acts|
  {
    hide CoreInv, Enabled, Do;
    DurableIsLogged(s);
    if acts != [] {
      CoreStep(s, acts[0]);
      DurableStep(s, acts[0]);
      DurableStays(Do(s, acts[0], true), acts[1..], s', n);
      var s1, d := Do(s, acts[0], true), G.Durable(s.gc);
      assert s1.log[..d][..n] == s1.log[..n] && s.log[..d][..n] == s.log[..n];
    }
  }

  lemma DurableIsLogged(s: Broker)
    requires CoreInv(s)
    ensures G.Durable(s.gc) <= |s.log|
  {
    DurableWithinLog(s.gc);
  }

  /** However the broker runs on, the job is there. */
  ghost predicate NeverGone(s: Broker, id: Id) {
    forall acts, s' :: Run(s, acts, true, s') ==> id in s'.img.jobs
  }

  lemma {:induction false} SubmissionOf(log: seq<Event>, id: Id) returns (n: nat)
    requires SoundLog(log) && id in Fold(log).jobs
    ensures 1 <= n <= |log| && log[n - 1].Submit? && log[n - 1].job.spec.id == id
    decreases |log|
  {
    var k := |log| - 1;
    assert log[..k + 1] == log;
    SoundAt(log, k);
    if log[k].Submit? && log[k].job.spec.id == id {
      n := |log|;
    } else {
      SoundPrefix(log, k);
      n := SubmissionOf(log[..k], id);
    }
  }

  lemma SubmittedLater(log: seq<Event>, n: nat, k: nat)
    requires SoundLog(log) && k < n <= |log| && log[n - 1].Submit?
    ensures log[n - 1].job.spec.id !in Fold(log[..k]).jobs
  {
    hide SoundLog, Fold;
    var id := log[n - 1].job.spec.id;
    SoundAt(log, n - 1);
    if id in Fold(log[..k]).jobs {
      SoundPrefix(log, k);
      var m := SubmissionOf(log[..k], id);
      SubmittedStays(log, m - 1, n - 1);
    }
  }

  /** A submitted job can no longer be lost exactly when its submission is durable. */
  lemma SubmissionIsSafeIff(s: Broker, n: nat)
    requires CoreInv(s) && 1 <= n <= |s.log| && s.log[n - 1].Submit?
    ensures NeverGone(s, s.log[n - 1].job.spec.id) <==> n <= G.Durable(s.gc)
  {
    hide CoreInv, Run, Fold;
    var id := s.log[n - 1].job.spec.id;
    if n <= G.Durable(s.gc) {
      forall acts, s' | Run(s, acts, true, s')
        ensures id in s'.img.jobs
      {
        DurableStays(s, acts, s', n);
        assert s'.log[n - 1] == s'.log[..n][n - 1] == s.log[..n][n - 1];
        LoggedIsThere(s', n);
      }
    } else {
      var d := G.Durable(s.gc);
      CutOff(s, n);
      RunOne(s, Crash(d, d, 0), true);
    }
  }

  lemma LoggedIsThere(s: Broker, n: nat)
    requires CoreInv(s) && 1 <= n <= |s.log| && s.log[n - 1].Submit?
    ensures s.log[n - 1].job.spec.id in s.img.jobs
  {
    assert s.log[..|s.log|] == s.log;
    SubmittedStays(s.log, n - 1, |s.log|);
  }

  /** A crash that keeps only what is durable takes every later submission with it. */
  lemma CutOff(s: Broker, n: nat)
    requires CoreInv(s) && G.Durable(s.gc) < n <= |s.log| && s.log[n - 1].Submit?
    ensures var d := G.Durable(s.gc);
            Enabled(s, Crash(d, d, 0), true) && s.log[n - 1].job.spec.id !in Do(s, Crash(d, d, 0), true).img.jobs
  {
    var d := G.Durable(s.gc);
    hide MemInv, CapInv, SnapInv, SoundLog, G.Inv, Fold, Recover;
    DurableWithinLog(s.gc);
    SubmittedLater(s.log, n, d);
    RecoverFollows(s, d, 0);
  }

  /** A deduplicated submission is answered with a job that can no longer be lost if and only if the submission that
      created the job is durable when the answer is given. */
  lemma DedupIsSafeIff(acts: seq<Act>, s: Broker, queue: string, key: string) returns (n: nat)
    requires Run(Init(), acts, true, s) && Enabled(s, Act.Dedup(queue, key), true)
    ensures var id := s.img.idem[IdemKey(queue, key)];
            var s' := Do(s, Act.Dedup(queue, key), true);
            && id in s'.answered && 1 <= n <= |s.log| && s.log[n - 1].Submit? && s.log[n - 1].job.spec.id == id
            && (NeverGone(s', id) <==> n <= G.Durable(s.gc))
  {
    hide Run;
    D.InitInv();
    D.RunKeepsInv(Init(), acts, s);
    D.IdempotencyHolds(acts, s);
    var s' := Do(s, Act.Dedup(queue, key), true);
    n := SubmissionOf(s.log, s.img.idem[IdemKey(queue, key)]);
    CoreStep(s, Act.Dedup(queue, key));
    SubmissionIsSafeIff(s', n);
  }

  /** The answer can be worthless: a job submitted, named to a second submitter, and lost in a crash. */
  lemma DedupCanBeLost() returns (acts: seq<Act>, s: Broker)
    ensures Run(Init(), acts, true, s) && 7 in s.answered && 7 !in s.img.jobs
  {
    hide Run;
    var j := PlainJob(7, "q", 0);
    var submit := Record(Submit(j.(spec := j.spec.(key := "k"))), 0);
    var s1 := Do(Init(), submit, true);
    Two(Init(), submit, Act.Dedup("q", "k"), true);
    var s2 := Do(s1, Act.Dedup("q", "k"), true);
    acts, s := Then(Init(), [submit, Act.Dedup("q", "k")], s2, Crash(0, 0, 0), true);
    assert Load(NO_SNAPSHOT).jobs == map[];
    assert Suffix(NO_SNAPSHOT, 1, []) == [];
  }
}
