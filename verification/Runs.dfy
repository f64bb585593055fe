/** Runs put together from steps, and the short runs that other proofs are built from. */
module Runs {
  import opened Jobs
  import opened Numbers
  import opened Recovery
  import opened System
  import G = GroupCommit

  lemma NoSteps(s: Broker, guarded: bool)
    ensures Run(s, [], guarded, s)
  {
  }

  lemma RunOne(s: Broker, a: Act, guarded: bool)
    requires Enabled(s, a, guarded)
    ensures Run(s, [a], guarded, Do(s, a, guarded))
  {
    assert [a][1..] == [];
  }

  lemma {:induction false} RunConcat(s: Broker, a: seq<Act>, s1: Broker, b: seq<Act>, guarded: bool, s2: Broker)
    requires Run(s, a, guarded, s1) && Run(s1, b, guarded, s2)
    ensures Run(s, a + b, guarded, s2)
    decreases |a|
  {
    hide Enabled, Do;
    if a == [] {
      assert a + b == b;
    } else {
      RunConcat(Do(s, a[0], guarded), a[1..], s1, b, guarded, s2);
      assert (a + b)[1..] == a[1..] + b;
    }
  }

  lemma Two(s: Broker, a: Act, b: Act, guarded: bool)
    requires Enabled(s, a, guarded) && Enabled(Do(s, a, guarded), b, guarded)
    ensures Run(s, [a, b], guarded, Do(Do(s, a, guarded), b, guarded))
  {
    RunOne(s, a, guarded);
    RunOne(Do(s, a, guarded), b, guarded);
    RunConcat(s, [a], Do(s, a, guarded), [b], guarded, Do(Do(s, a, guarded), b, guarded));
    assert [a] + [b] == [a, b];
  }

  /** One more step at the end of a run. */
  lemma Then(s: Broker, acts: seq<Act>, s1: Broker, a: Act, guarded: bool) returns (acts': seq<Act>, s': Broker)
    requires Run(s, acts, guarded, s1) && Enabled(s1, a, guarded)
    ensures acts' == acts + [a] && s' == Do(s1, a, guarded) && Run(s, acts', guarded, s')
  {
    acts', s' := acts + [a], Do(s1, a, guarded);
    RunOne(s1, a, guarded);
    RunConcat(s, acts, s1, [a], guarded, s');
  }

  function PlainJob(id: Id, queue: string, now: Time): Job {
    Job(Spec(id, queue, "shell", "", "", 1, 0, now), 0, Pending, 0, now, ZERO_TIME, "", "")
  }

  // ---------------------------------------------------------- reservations ---

  /** Claiming a block: the record goes in, a flush covers it, and only then is the ceiling raised. */
  function ReserveActs(block: nat, tid: G.Tid): seq<Act> {
    [Reserve(block, tid), Inner(G.Write(tid)), Inner(G.Begin(tid)), Inner(G.End(tid)), ReserveDone]
  }

  lemma OwnFlush(s: Broker, a: G.Act)
    requires s.lock.Reserving? && (a.Write? || a.Begin? || a.End?) && s.lock.tid == a.tid && G.Enabled(s.gc, a)
    ensures Enabled(s, Inner(a), true) && Do(s, Inner(a), true) == s.(gc := G.Do(s.gc, a))
  {
    hide Enabled, Do;
    InnerStep(s, a, true);
  }

  /** The reserving thread's flush, whatever other threads are in the middle of. */
  lemma FlushRun(s: Broker, tid: G.Tid) returns (s': Broker)
    requires s.lock.Reserving? && s.lock.tid == tid && tid !in s.gc.loops
    requires G.LogInv(s.gc) && !s.gc.broken && tid !in s.gc.syncs
    ensures Run(s, [Inner(G.Write(tid)), Inner(G.Begin(tid)), Inner(G.End(tid))], true, s')
    ensures s' == s.(gc := s.gc.(written := s.gc.appended, synced := s.gc.appended - s.gc.base,
                                 syncs := s.gc.syncs[tid := G.Synced(s.gc.appended)]))
  {
    hide Run, Do, Enabled;
    OwnFlush(s, G.Write(tid));
    OwnFlush(Do(s, Inner(G.Write(tid)), true), G.Begin(tid));
    OwnFlush(Do(Do(s, Inner(G.Write(tid)), true), Inner(G.Begin(tid)), true), G.End(tid));
    var a, b, c := Inner(G.Write(tid)), Inner(G.Begin(tid)), Inner(G.End(tid));
    var s1 := Do(s, a, true);
    var s2 := Do(s1, b, true);
    s' := Do(s2, c, true);
    Two(s, a, b, true);
    RunOne(s2, c, true);
    RunConcat(s, [a, b], s2, [c], true, s');
    assert [a, b] + [c] == [a, b, c];
    assert s'.gc.syncs == s.gc.syncs[tid := G.Synced(s.gc.appended)];
  }

  lemma ReserveRun(s: Broker, block: nat, tid: G.Tid) returns (s': Broker)
    requires Enabled(s, Reserve(block, tid), true) && G.LogInv(s.gc) && !s.gc.broken
    ensures Run(s, ReserveActs(block, tid), true, s')
    ensures var e := EpochReserve(s.nextEpoch + block - 1);
            s' == s.(log := s.log + [e], img := Effect(s.img, e),
                     gc := s.gc.(appended := s.gc.appended + 1, written := s.gc.appended + 1,
                       synced := s.gc.appended + 1 - s.gc.base))
  {
    hide Run;
    var s1 := Do(s, Reserve(block, tid), true);
    var s4 := FlushRun(s1, tid);
    var flush := [Inner(G.Write(tid)), Inner(G.Begin(tid)), Inner(G.End(tid))];
    s' := Do(s4, ReserveDone, true);
    RunOne(s, Reserve(block, tid), true);
    RunOne(s4, ReserveDone, true);
    RunConcat(s1, flush, s4, [ReserveDone], true, s');
    RunConcat(s, [Reserve(block, tid)], s1, flush + [ReserveDone], true, s');
    assert ReserveActs(block, tid) == [Reserve(block, tid)] + (flush + [ReserveDone]);
    assert s'.gc.syncs == s.gc.syncs;
  }

  // --------------------------------------------------------- lone commits ---

  /** A broker on which nobody is waiting and nothing is being flushed. */
  ghost predicate Quiet(g: G.State) {
    && g.loops == map[] && g.syncs == map[] && g.waiters == [] && !g.running && !g.broken
    && g.sealed == g.base && g.base + g.synced <= g.written <= g.appended
  }

  /** Where the committer stands after serving one call from a quiet start. */
  ghost function Served(g: G.State, ch: G.Ch): G.State {
    g.(written := g.appended, synced := if g.base <= g.appended then Max(g.synced, g.appended - g.base) else 0,
       joined := g.joined[ch := g.appended], running := true, loops := map[0 := G.Replying([], true)],
       replied := g.replied[ch := true])
  }

  /** A lone commit succeeds: seven steps of its flush loop and its record is acknowledged. */
  lemma LoneCommit(s: Broker, ch: G.Ch) returns (acts: seq<Act>, s': Broker)
    requires Quiet(s.gc) && s.lock.Unlocked? && ch in s.calls && ch !in s.gc.joined
    requires 0 < s.calls[ch] <= |s.log|
    ensures Run(s, acts, true, s')
    ensures s' == s.(gc := Served(s.gc, ch), granted := s.granted + {(s.calls[ch], s.log[s.calls[ch] - 1])})
  {
    hide Run;
    var s1 := LoneJoin(s, ch);
    var s2 := LoneFlush(s1, ch);
    var s3 := LoneReply(s2, ch);
    RunConcat(s, [Inner(G.Join(ch, 0)), Inner(G.Take(0))], s1, [Inner(G.Write(0)), Inner(G.Begin(0)), Inner(G.End(0))],
      true, s2);
    acts := [Inner(G.Join(ch, 0)), Inner(G.Take(0))] + [Inner(G.Write(0)), Inner(G.Begin(0)), Inner(G.End(0))];
    RunConcat(s, acts, s2, [Inner(G.Return(0)), Inner(G.Reply(0))], true, s3);
    acts := acts + [Inner(G.Return(0)), Inner(G.Reply(0))];
    s' := s3;
  }

  lemma LoneJoin(s: Broker, ch: G.Ch) returns (s': Broker)
    requires Quiet(s.gc) && s.lock.Unlocked? && ch in s.calls && ch !in s.gc.joined
    ensures Run(s, [Inner(G.Join(ch, 0)), Inner(G.Take(0))], true, s')
    ensures s' == s.(gc := s.gc.(joined := s.gc.joined[ch := s.gc.appended], running := true,
      loops := map[0 := G.Syncing([ch])]))
  {
    hide Run, Legit, Effect, Recover, DoCrash, DoRecord, Complete;
    Two(s, Inner(G.Join(ch, 0)), Inner(G.Take(0)), true);
    s' := Do(Do(s, Inner(G.Join(ch, 0)), true), Inner(G.Take(0)), true);
    assert s.gc.waiters + [ch] == [ch];
    assert s'.gc.loops == map[0 := G.Syncing([ch])];
  }

  lemma LoneFlush(s: Broker, ch: G.Ch) returns (s': Broker)
    requires s.gc.loops == map[0 := G.Syncing([ch])] && s.gc.syncs == map[] && !s.gc.broken
    ensures Run(s, [Inner(G.Write(0)), Inner(G.Begin(0)), Inner(G.End(0))], true, s')
    ensures s' == s.(gc := s.gc.(written := s.gc.appended,
                                 synced := Max(s.gc.synced,
                                               if s.gc.base <= s.gc.appended then s.gc.appended - s.gc.base else 0),
                                 syncs := map[0 := G.Synced(s.gc.appended)]))
  {
    hide Run, Enabled, Do;
    var a, b, c := Inner(G.Write(0)), Inner(G.Begin(0)), Inner(G.End(0));
    InnerStep(s, G.Write(0), true);
    InnerStep(Do(s, a, true), G.Begin(0), true);
    InnerStep(Do(Do(s, a, true), b, true), G.End(0), true);
    Two(s, a, b, true);
    var s2 := Do(Do(s, a, true), b, true);
    RunOne(s2, c, true);
    s' := Do(s2, c, true);
    RunConcat(s, [a, b], s2, [c], true, s');
    assert [a, b] + [c] == [a, b, c];
    assert s'.gc.syncs == map[0 := G.Synced(s.gc.appended)];
  }

  lemma LoneReply(s: Broker, ch: G.Ch) returns (s': Broker)
    requires s.gc.loops == map[0 := G.Syncing([ch])] && s.gc.syncs.Keys == {0} && s.gc.syncs[0].Synced?
    requires ch in s.calls && 0 < s.calls[ch] <= |s.log|
    ensures Run(s, [Inner(G.Return(0)), Inner(G.Reply(0))], true, s')
    ensures s' == s.(gc := s.gc.(syncs := map[], loops := map[0 := G.Replying([], true)],
      replied := s.gc.replied[ch := true]),
                     granted := s.granted + {(s.calls[ch], s.log[s.calls[ch] - 1])})
  {
    hide Run, Enabled, Do;
    InnerStep(s, G.Return(0), true);
    InnerStep(Do(s, Inner(G.Return(0)), true), G.Reply(0), true);
    Two(s, Inner(G.Return(0)), Inner(G.Reply(0)), true);
    s' := Do(Do(s, Inner(G.Return(0)), true), Inner(G.Reply(0)), true);
    assert [ch][1..] == [];
    assert s'.gc.loops == map[0 := G.Replying([], true)] && s'.gc.syncs == map[];
  }

  // ------------------------------------------------------------ snapshots ---

  const FIELDS := [FState, FAttempt, FEpoch, FEligible, FExpires, FLeasedBy, FError]

  lemma AllFields()
    ensures forall f :: f in FIELDS
  {
    forall f: Field
      ensures f in FIELDS
    {
      match f
      case FState => assert FIELDS[0] == f;
      case FAttempt => assert FIELDS[1] == f;
      case FEpoch => assert FIELDS[2] == f;
      case FEligible => assert FIELDS[3] == f;
      case FExpires => assert FIELDS[4] == f;
      case FLeasedBy => assert FIELDS[5] == f;
      case FError => assert FIELDS[6] == f;
    }
  }

  ghost predicate CanRead(s: Broker, id: Id) {
    s.cap.Encoding? && id in s.cap.base && id in s.cap.jobs && id in s.img.jobs
  }

  /** Only the encoding of this job has moved on, and what had been read of it right still is. */
  ghost predicate ReadOn(s: Broker, s': Broker, id: Id) {
    && CanRead(s, id) && CanRead(s', id) && s' == s.(cap := s'.cap)
    && s'.cap.base == s.cap.base && s'.cap.lsn == s.cap.lsn && s'.cap.ceiling == s.cap.ceiling
    && s'.cap.jobs.Keys == s.cap.jobs.Keys && s.cap.read <= s'.cap.read && s'.cap.jobs[id].spec == s.cap.jobs[id].spec
    && forall f :: Same(f, s.cap.jobs[id], s.img.jobs[id]) ==> Same(f, s'.cap.jobs[id], s.img.jobs[id])
  }

  ghost predicate HasRead(s: Broker, id: Id, f: Field) {
    CanRead(s, id) && (id, f) in s.cap.read && Same(f, s.cap.jobs[id], s.img.jobs[id])
  }

  lemma ReadOne(s: Broker, id: Id, f: Field, guarded: bool) returns (s': Broker)
    requires CanRead(s, id)
    ensures Run(s, [Read(id, f)], guarded, s') && ReadOn(s, s', id) && HasRead(s', id, f)
  {
    s' := Do(s, Read(id, f), guarded);
    RunOne(s, Read(id, f), guarded);
  }

  lemma ReadOnTwice(s: Broker, s1: Broker, s2: Broker, id: Id)
    requires ReadOn(s, s1, id) && ReadOn(s1, s2, id)
    ensures ReadOn(s, s2, id) && forall f :: HasRead(s1, id, f) ==> HasRead(s2, id, f)
  {
  }

  lemma ReadNothing(s: Broker, id: Id)
    requires CanRead(s, id)
    ensures ReadOn(s, s, id)
  {
  }

  /** Reading the given fields of a job, one after the other, with nothing in between. */
  lemma {:induction false} ReadFields(s: Broker, id: Id, fs: seq<Field>, guarded: bool)
    returns (acts: seq<Act>, s': Broker)
    requires CanRead(s, id)
    ensures Run(s, acts, guarded, s') && ReadOn(s, s', id) && forall f :: f in fs ==> HasRead(s', id, f)
    decreases |fs|
  {
    if fs == [] {
      acts, s' := [], s;
      ReadNothing(s, id);
    } else {
      var s1 := ReadOne(s, id, fs[0], guarded);
      assert CanRead(s1, id);
      acts, s' := ReadFields(s1, id, fs[1..], guarded);
      hide Run, ReadOn, HasRead, CanRead;
      RunConcat(s, [Read(id, fs[0])], s1, acts, guarded, s');
      ReadOnTwice(s, s1, s', id);
      acts := [Read(id, fs[0])] + acts;
      assert fs == [fs[0]] + fs[1..];
    }
  }

  /** Encoding a job in one go copies it as it is. */
  lemma ReadAll(s: Broker, id: Id, guarded: bool) returns (acts: seq<Act>, s': Broker)
    requires CanRead(s, id) && s.cap.jobs[id].spec == s.img.jobs[id].spec
    ensures Run(s, acts, guarded, s') && CanRead(s', id)
    ensures s'.cap.base == s.cap.base && s'.cap.lsn == s.cap.lsn && s' == s.(cap := s'.cap)
    ensures s'.cap.ceiling == s.cap.ceiling && s'.cap.jobs.Keys == s.cap.jobs.Keys
    ensures s'.cap.jobs[id] == s.img.jobs[id] && forall f: Field :: (id, f) in s'.cap.read
  {
    acts, s' := ReadFields(s, id, FIELDS, guarded);
    hide Run, FIELDS, Same;
    forall f: Field
      ensures (id, f) in s'.cap.read && Same(f, s'.cap.jobs[id], s.img.jobs[id])
    {
      AllFields();
      assert HasRead(s', id, f);
    }
    SameAll(s'.cap.jobs[id], s.img.jobs[id]);
  }

  lemma SameAll(a: Job, b: Job)
    requires a.spec == b.spec && forall f :: Same(f, a, b)
    ensures a == b
  {
    assert Same(FState, a, b) && Same(FAttempt, a, b) && Same(FEpoch, a, b) && Same(FEligible, a, b);
    assert Same(FExpires, a, b) && Same(FLeasedBy, a, b) && Same(FError, a, b);
  }
}
