/** What goes wrong when a snapshot becomes visible ahead of the durable log, and that nothing else does.

    Snapshot records the LSN of the last append without flushing, and Open does not move the log's next LSN past the
    snapshot. If the snapshot's LSN was not durable, a crash lets the log hand those LSNs out again, and the next
    recovery skips the new records because the snapshot claims to cover them. */
module Unguarded {
  import opened Jobs
  import opened Recovery
  import opened System
  import opened Runs
  import opened Core
  import G = GroupCommit
  import D = Durability
  import F = Fencing

  /** Every submission acknowledged so far still has its job. */
  ghost predicate NothingLost(s: Broker) {
    forall n, e :: (n, e) in s.granted && e.Submit? ==> e.job.spec.id in s.img.jobs
  }

  /** Every completion acknowledged so far still stands. */
  ghost predicate NothingUndone(s: Broker) {
    forall n, e :: (n, e) in s.granted && e.Ack? ==> e.id in s.img.jobs && s.img.jobs[e.id].state == Done
  }

  /** Every token handed out exceeds those handed out before it. */
  ghost predicate NothingRepeats(s: Broker) {
    forall i, j :: 0 <= i < j < |s.issued| ==> s.issued[i] < s.issued[j]
  }

  // ... and that stays so however the broker runs on from here, as long as later snapshots are guarded.

  ghost predicate NeverLoses(s: Broker) {
    forall acts, s' :: Run(s, acts, true, s') ==> NothingLost(s')
  }

  ghost predicate NeverUndoes(s: Broker) {
    forall acts, s' :: Run(s, acts, true, s') ==> NothingUndone(s')
  }

  ghost predicate NeverRepeats(s: Broker) {
    forall acts, s' :: Run(s, acts, true, s') ==> NothingRepeats(s')
  }

  lemma SomeIdIsFree(ids: set<Id>) returns (id: Id)
    ensures forall x :: x in ids ==> x < id
  {
    if ids == {} {
      id := 0;
    } else {
      var x :| x in ids;
      var above := SomeIdIsFree(ids - {x});
      id := if above <= x then x + 1 else above;
      assert forall y :: y in ids ==> y == x || y in ids - {x};
    }
  }

  /** A broker whose visible snapshot claims LSNs the log has yet to hand out. */
  ghost predicate Overclaims(s: Broker) {
    && 1 <= s.first <= s.snap.lsn + 1 && G.Durable(s.gc) < s.snap.lsn
    && G.Inv(s.gc) && |s.log| == s.gc.appended
  }

  /** The first crash takes the log back to its durable part, and recovery shows the snapshot alone. */
  lemma Rewound(s: Broker) returns (s': Broker)
    requires Overclaims(s)
    ensures var d := G.Durable(s.gc);
            && Run(s, [Crash(d, d, 0)], true, s') && s.gc.base <= d < s.snap.lsn
            && s'.gc == G.Reboot(s.gc.base, d, d) && |s'.log| == d && s'.calls == map[] && s'.lock.Unlocked?
    ensures s'.snap == s.snap && s'.first == s.first && s'.granted == s.granted && s'.issued == s.issued
    ensures s'.img.jobs.Keys == s.snap.jobs.Keys && s'.img.ceiling == s.snap.ceiling
      && s'.nextEpoch == s.snap.ceiling + 1
  {
    hide Run, SnapshotFits, Recover;
    var d := G.Durable(s.gc);
    DurableWithinLog(s.gc);
    RunOne(s, Crash(d, d, 0), true);
    s' := Do(s, Crash(d, d, 0), true);
    SkipsTheSuffix(s.snap, s.first, s'.log, 0);
  }

  /** Two crashes, a submission acknowledged between them, and its job is gone: it gets an LSN the snapshot claims to
      cover, and the second recovery skips it. */
  lemma OverclaimLoses(s: Broker) returns (acts: seq<Act>, s': Broker)
    requires Overclaims(s)
    ensures Run(s, acts, true, s') && !NothingLost(s')
  {
    hide Run, SnapshotFits, Recover;
    var d := G.Durable(s.gc);
    var s1 := Rewound(s);
    var id := SomeIdIsFree(s1.img.jobs.Keys);
    var acts1, s2 := SubmitAcked(s1, PlainJob(id, "q", 0));
    RunConcat(s, [Crash(d, d, 0)], s1, acts1, true, s2);
    acts, s' := Then(s, [Crash(d, d, 0)] + acts1, s2, Crash(d + 1, d + 1, 0), true);
    SkipsTheSuffix(s.snap, s.first, s2.log[..d + 1], 0);
    assert (d + 1, Submit(PlainJob(id, "q", 0))) in s'.granted;
  }

  /** A token reservation that gets such an LSN is skipped as well, and the next lease gets a token handed out before.
      */
  lemma OverclaimRepeats(s: Broker) returns (acts: seq<Act>, s': Broker)
    requires Overclaims(s)
    ensures Run(s, acts, true, s') && !NothingRepeats(s')
    ensures exists i, j :: 0 <= i < j < |s'.issued| && s'.issued[i] == s'.issued[j]
  {
    hide Run, SnapshotFits, Recover;
    var d := G.Durable(s.gc);
    var s1 := Rewound(s);
    var id := SomeIdIsFree(s1.img.jobs.Keys);
    var acts1, s2 := LeasedOnce(s1, PlainJob(id, "q", 0));
    RunConcat(s, [Crash(d, d, 0)], s1, acts1, true, s2);
    var acts2, s3 := Then(s, [Crash(d, d, 0)] + acts1, s2, Crash(d + 1, d + 1, 0), true);
    SkipsTheSuffix(s.snap, s.first, s2.log[..d + 1], 0);
    var acts3;
    acts3, s' := LeasedOnce(s3, PlainJob(id, "q", 0));
    RunConcat(s, acts2, s3, acts3, true, s');
    acts := acts2 + acts3;
    var n := |s.issued|;
    assert s'.issued[n] == s'.issued[n + 1] == s1.nextEpoch;
  }

  /** On a broker that has just restarted: tokens claimed, a job submitted, and leased. Only the claim is flushed. */
  lemma LeasedOnce(s: Broker, j: Job) returns (acts: seq<Act>, s': Broker)
    requires s.lock.Unlocked? && s.calls == map[] && Fresh(j) && j.spec.key == "" && j.spec.id !in s.img.jobs
    requires s.gc.base <= |s.log| && s.gc == G.Reboot(s.gc.base, |s.log|, |s.log|) && s.nextEpoch == s.img.ceiling + 1
    ensures Run(s, acts, true, s') && |s'.log| == |s.log| + 3 && s'.issued == s.issued + [s.nextEpoch]
    ensures s'.nextEpoch == s.nextEpoch + 1 && s'.snap == s.snap && s'.first == s.first
    ensures s'.gc.base == s.gc.base && G.Durable(s'.gc) == |s.log| + 1
  {
    hide Run;
    var s1 := ReserveRun(s, 1, 0);
    var submit := Record(Submit(j), 0);
    var lease := Record(Lease(j.spec.id, s.nextEpoch, "w", 0, 1), 1);
    Two(s1, submit, lease, true);
    s' := Do(Do(s1, submit, true), lease, true);
    RunConcat(s, ReserveActs(1, 0), s1, [submit, lease], true, s');
    acts := ReserveActs(1, 0) + [submit, lease];
  }

  /** And a completion is undone: the submission of its job gets such an LSN, so the job the completion is about is
      unknown to the second recovery. (Replay then reports an error, and the program does not start.) */
  lemma OverclaimUndoes(s: Broker) returns (acts: seq<Act>, s': Broker)
    requires Overclaims(s)
    ensures Run(s, acts, true, s') && !NothingUndone(s')
  {
    hide Run, SnapshotFits, Recover;
    var d := G.Durable(s.gc);
    var s1 := Rewound(s);
    var id := SomeIdIsFree(s1.img.jobs.Keys);
    var acts1, s2 := AckAcked(s1, PlainJob(id, "q", 0));
    RunConcat(s, [Crash(d, d, 0)], s1, acts1, true, s2);
    acts, s' := Then(s, [Crash(d, d, 0)] + acts1, s2, Crash(d + 4, d + 4, 0), true);
    assert s2.log[..d + 4] == s2.log;
    SkipsTheSubmission(s.snap, s.first, s2.log, id, 0);
    assert (d + 4, Ack(id, s1.nextEpoch)) in s'.granted;
  }

  /** On a broker that has just restarted: a job submitted, leased and acked, and the ack acknowledged. */
  lemma AckAcked(s: Broker, j: Job) returns (acts: seq<Act>, s': Broker)
    requires s.lock.Unlocked? && s.calls == map[] && Fresh(j) && j.spec.key == "" && j.spec.id !in s.img.jobs
    requires s.gc.base <= |s.log| && s.gc == G.Reboot(s.gc.base, |s.log|, |s.log|) && s.nextEpoch == s.img.ceiling + 1
    ensures var ack := Ack(j.spec.id, s.nextEpoch);
            && Run(s, acts, true, s') && |s'.log| == |s.log| + 4 && s'.granted == s.granted + {(|s'.log|, ack)}
    ensures forall i :: |s.log| < i < |s'.log| ==> !s'.log[i].Submit?
    ensures s'.snap == s.snap && s'.first == s.first && s'.gc.base == s.gc.base && G.Durable(s'.gc) == |s'.log|
  {
    hide Run;
    var submit := Record(Submit(j), 0);
    var s1 := Do(s, submit, true);
    RunOne(s, submit, true);
    var s2 := ReserveRun(s1, 1, 0);
    RunConcat(s, [submit], s1, ReserveActs(1, 0), true, s2);
    var pair, s3 := LeaseThenAck(s2, j.spec.id);
    RunConcat(s, [submit] + ReserveActs(1, 0), s2, pair, true, s3);
    var commit;
    commit, s' := LoneCommit(s3, 2);
    RunConcat(s, [submit] + ReserveActs(1, 0) + pair, s3, commit, true, s');
    acts := [submit] + ReserveActs(1, 0) + pair + commit;
  }

  lemma LeaseThenAck(s: Broker, id: Id) returns (acts: seq<Act>, s': Broker)
    requires s.lock.Unlocked? && id in s.img.jobs && s.img.jobs[id].state == Pending && s.img.jobs[id].attempt == 0
    requires s.nextEpoch <= s.img.ceiling && s.calls.Keys <= {0} && s.gc.joined == map[]
    ensures Run(s, acts, true, s') && s'.lock.Unlocked? && s'.gc == s.gc.(appended := s.gc.appended + 2)
    ensures s'.log == s.log + [Lease(id, s.nextEpoch, "w", 0, 1), Ack(id, s.nextEpoch)]
    ensures 2 in s'.calls && s'.calls[2] == |s'.log| && s'.granted == s.granted && s'.snap == s.snap
      && s'.first == s.first
  {
    hide Run;
    var lease := Record(Lease(id, s.nextEpoch, "w", 0, 1), 1);
    var ack := Record(Ack(id, s.nextEpoch), 2);
    Two(s, lease, ack, true);
    acts, s' := [lease, ack], Do(Do(s, lease, true), ack, true);
    assert s.log + [lease.e] + [ack.e] == s.log + [lease.e, ack.e];
  }

  lemma {:induction false} NeverSubmitted(m: Image, es: seq<Event>, id: Id)
    requires id !in m.jobs && forall i :: 0 <= i < |es| ==> !es[i].Submit?
    ensures id !in FoldFrom(m, es).jobs
  {
    if es != [] {
      NeverSubmitted(m, es[..|es| - 1], id);
    }
  }

  /** A job whose submission the snapshot claims to cover, but does not hold, is not recovered. */
  lemma SkipsTheSubmission(snap: Snapshot, first: nat, log: seq<Event>, id: Id, now: Time)
    requires 1 <= first && id !in snap.jobs && forall i :: snap.lsn <= i < |log| ==> !log[i].Submit?
    ensures id !in Recover(snap, first, log, now).jobs
  {
    hide DeriveIdem, FoldFrom;
    NeverSubmitted(Load(snap), Suffix(snap, first, log), id);
  }

  /** A submission to a broker that has just restarted, and its acknowledgement. */
  lemma SubmitAcked(s: Broker, j: Job) returns (acts: seq<Act>, s': Broker)
    requires s.lock.Unlocked? && s.calls == map[] && Fresh(j) && j.spec.key == "" && j.spec.id !in s.img.jobs
    requires s.gc.base <= |s.log| && s.gc == G.Reboot(s.gc.base, |s.log|, |s.log|)
    ensures Run(s, acts, true, s') && s'.log == s.log + [Submit(j)]
      && s'.granted == s.granted + {(|s.log| + 1, Submit(j))}
    ensures s'.snap == s.snap && s'.first == s.first && s'.gc.base == s.gc.base
      && s'.gc.written == G.Durable(s'.gc) == |s'.log|
  {
    hide Run;
    var submit := Record(Submit(j), 0);
    var s1 := Do(s, submit, true);
    RunOne(s, submit, true);
    var commit;
    commit, s' := LoneCommit(s1, 0);
    RunConcat(s, [submit], s1, commit, true, s');
    acts := [submit] + commit;
  }

  lemma SkipsTheSuffix(snap: Snapshot, first: nat, log: seq<Event>, now: Time)
    requires 1 <= first <= snap.lsn + 1 && |log| <= snap.lsn
    ensures Recover(snap, first, log, now).jobs.Keys == snap.jobs.Keys
      && Recover(snap, first, log, now).ceiling == snap.ceiling
  {
    assert Suffix(snap, first, log) == [];
  }

  /** Making a snapshot visible never costs an acknowledged submission exactly when the log is durable up to the
      snapshot's LSN; it never undoes an acknowledged completion exactly then; and tokens never repeat exactly then. */
  lemma PublishIsSafeIff(acts: seq<Act>, s: Broker)
    requires Run(Init(), acts, true, s) && Enabled(s, Publish, false)
    ensures NeverLoses(Do(s, Publish, false)) <==> s.cap.lsn <= G.Durable(s.gc)
    ensures NeverUndoes(Do(s, Publish, false)) <==> s.cap.lsn <= G.Durable(s.gc)
    ensures NeverRepeats(Do(s, Publish, false)) <==> s.cap.lsn <= G.Durable(s.gc)
  {
    hide Run;
    var s1 := Do(s, Publish, false);
    if s.cap.lsn <= G.Durable(s.gc) {
      var acts1, s2 := Then(Init(), acts, s, Publish, true);
      assert s2 == s1;
      forall acts', s' | Run(s1, acts', true, s')
        ensures NothingLost(s') && NothingUndone(s') && NothingRepeats(s')
      {
        RunConcat(Init(), acts1, s1, acts', true, s');
        GuardedIsSafe(acts1 + acts', s');
      }
    } else {
      D.InitInv();
      D.RunKeepsInv(Init(), acts, s);
      assert s.snap.lsn <= s.cap.lsn && Overclaims(s1);
      var _, s2 := OverclaimLoses(s1);
      var _, s3 := OverclaimUndoes(s1);
      var _, s4 := OverclaimRepeats(s1);
    }
  }

  lemma GuardedIsSafe(acts: seq<Act>, s: Broker)
    requires Run(Init(), acts, true, s)
    ensures NothingLost(s) && NothingUndone(s) && NothingRepeats(s)
  {
    hide CoreInv, D.CallInv, F.FenceInv, Run;
    D.InitInv();
    D.RunKeepsInv(Init(), acts, s);
    F.InitInv();
    F.RunKeepsInv(Init(), acts, s);
    forall n, e | (n, e) in s.granted
      ensures e.Submit? ==> e.job.spec.id in s.img.jobs
      ensures e.Ack? ==> e.id in s.img.jobs && s.img.jobs[e.id].state == Done
    {
      D.GrantedHolds(s, n, e);
    }
  }

  lemma Relaxed(s: Broker, a: Act)
    requires Enabled(s, a, true)
    ensures Enabled(s, a, false) && Do(s, a, false) == Do(s, a, true)
  {
  }

  lemma {:induction false} GuardIsOptional(s: Broker, acts: seq<Act>, s': Broker)
    requires Run(s, acts, true, s')
    ensures Run(s, acts, false, s')
    decreases |acts|
  {
    hide Enabled, Do;
    if acts != [] {
      Relaxed(s, acts[0]);
      GuardIsOptional(Do(s, acts[0], true), acts[1..], s');
    }
  }

  /** The failure is real: from the empty broker, submit, snapshot before the flush, crash, submit again and be told it
      is durable, crash. */
  lemma UnguardedRunLosesAJob() returns (acts: seq<Act>, s: Broker)
    ensures Run(Init(), acts, false, s) && !NothingLost(s)
  {
    hide Run;
    var submit := Record(Submit(PlainJob(7, "q", 0)), 0);
    var s0 := Init();
    var s1 := Do(s0, submit, false);
    Two(s0, submit, Capture, false);
    var s2 := Do(s1, Capture, false);
    var scan, s3 := ReadAll(s2, 7, false);
    RunConcat(s0, [submit, Capture], s2, scan, false, s3);
    RunOne(s3, Publish, false);
    var s4 := Do(s3, Publish, false);
    RunConcat(s0, [submit, Capture] + scan, s3, [Publish], false, s4);
    G.RebootInv(0, 0, 0);
    G.StepKeepsInv(s0.gc, G.Append);
    var more, s5 := OverclaimLoses(s4);
    GuardIsOptional(s4, more, s5);
    RunConcat(s0, [submit, Capture] + scan + [Publish], s4, more, false, s5);
    acts, s := [submit, Capture] + scan + [Publish] + more, s5;
  }
}
