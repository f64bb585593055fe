/** Snapshots, replay and the unlogged release of leases: what a restarted broker's state has to do with its log. */
module Recovery {
  import opened Numbers
  import opened Jobs

  datatype Snapshot = Snapshot(lsn: nat, ceiling: nat, jobs: map<Id, Job>)

  /** What loadLatestSnapshot returns when there is none. */
  const NO_SNAPSHOT := Snapshot(0, 0, map[])

  ghost function Keys(jobs: map<Id, Job>): set<string> {
    set id | id in jobs && jobs[id].spec.key != "" :: KeyOf(jobs[id].spec)
  }

  ghost function JobOf(jobs: map<Id, Job>, k: string): Id
    requires k in Keys(jobs)
  {
    var id :| id in jobs && jobs[id].spec.key != "" && KeyOf(jobs[id].spec) == k;
    id
  }

  /** The idempotency map is not stored; loading derives it from the jobs. */
  ghost function DeriveIdem(jobs: map<Id, Job>): map<string, Id> {
    map k | k in Keys(jobs) :: JobOf(jobs, k)
  }

  function LeasedIds(jobs: map<Id, Job>): set<Id> {
    set id | id in jobs && jobs[id].state == Leased
  }

  ghost function Load(snap: Snapshot): Image {
    Image(snap.jobs, DeriveIdem(snap.jobs), LeasedIds(snap.jobs), snap.ceiling)
  }

  lemma EffectKeepsLeased(m: Image, nextEpoch: nat, e: Event)
    requires m.leased == LeasedIds(m.jobs) && Legit(m, nextEpoch, e)
    ensures Effect(m, e).leased == LeasedIds(Effect(m, e).jobs)
  {
  }

  const RESTARTED := "broker restarted while job was leased"

  function Released(j: Job, now: Time): Job {
    if j.state == Leased
    then j.(state := RetryWait, leasedBy := "", leaseExpiresAt := ZERO_TIME, eligibleAt := now, lastError := RESTARTED)
    else j
  }

  /** Every lease outstanding at the crash is released. Nothing about this is logged. */
  function Release(m: Image, now: Time): Image {
    m.(jobs := map id | id in m.jobs :: Released(m.jobs[id], now), leased := {})
  }

  /** A released job waits for a retry that may come at once; its budget, its token and every other job are untouched.
      */
  lemma ReleaseMeans(m: Image, now: Time)
    ensures Release(m, now).jobs.Keys == m.jobs.Keys && Release(m, now).leased == {}
    ensures Release(m, now).idem == m.idem && Release(m, now).ceiling == m.ceiling
    ensures forall id :: id in m.jobs && m.jobs[id].state == Leased ==>
      Release(m, now).jobs[id] == m.jobs[id].(state := RetryWait, eligibleAt := now, leasedBy := "",
                                              leaseExpiresAt := 0, lastError := "broker restarted while job was leased")
    ensures forall id :: id in m.jobs && m.jobs[id].state != Leased ==> Release(m, now).jobs[id] == m.jobs[id]
  {
  }

  /** The records a replay from the snapshot finds, when segments below LSN `first` have been deleted. */
  function Suffix(snap: Snapshot, first: nat, log: seq<Event>): seq<Event>
    requires 1 <= first
  {
    var from := Max(snap.lsn, first - 1);
    if from <= |log| then log[from..] else []
  }

  /** The state Open ends up with. */
  ghost function Recover(snap: Snapshot, first: nat, log: seq<Event>, now: Time): Image
    requires 1 <= first
  {
    Release(FoldFrom(Load(snap), Suffix(snap, first, log)), now)
  }

  // ------------------------------------------------- log against lived state ---

  /** What never diverges between a job as the log folds it and the job the brokers lived with. */
  ghost predicate Weak(l: Job, v: Job) {
    l.spec == v.spec && (l.state == Done ==> v.state == Done)
  }

  /** The same when every snapshot taken was covered by durable records: they differ only where an unlogged release or
      a heartbeat can have touched the lived job. */
  ghost predicate Strong(l: Job, v: Job) {
    && l.spec == v.spec && l.attempt == v.attempt && l.epoch == v.epoch
    && (l.state == v.state || (l.state == Leased && v.state == RetryWait))
    && (l.state != Leased && l.state != Done ==> l.eligibleAt == v.eligibleAt && l.lastError == v.lastError)
  }

  ghost predicate Follows(l: Image, v: Image) {
    && l.jobs.Keys == v.jobs.Keys && l.idem == v.idem
    && forall id :: id in l.jobs ==> Weak(l.jobs[id], v.jobs[id])
  }

  ghost predicate Matches(l: map<Id, Job>, v: map<Id, Job>) {
    l.Keys == v.Keys && forall id :: id in l ==> Strong(l[id], v[id])
  }

  /** Every event overwrites with absolute values, so no event can pull the two apart. */
  lemma EffectFollows(l: Image, v: Image, e: Event)
    requires Follows(l, v)
    ensures Follows(Effect(l, e), Effect(v, e))
  {
  }

  lemma EffectMatches(l: Image, v: Image, e: Event)
    requires Matches(l.jobs, v.jobs)
    ensures Matches(Effect(l, e).jobs, Effect(v, e).jobs)
  {
  }

  lemma {:induction false} FoldFollows(l: Image, v: Image, es: seq<Event>)
    requires Follows(l, v)
    ensures Follows(FoldFrom(l, es), FoldFrom(v, es))
  {
    if es != [] {
      FoldFollows(l, v, es[..|es| - 1]);
      EffectFollows(FoldFrom(l, es[..|es| - 1]), FoldFrom(v, es[..|es| - 1]), es[|es| - 1]);
    }
  }

  lemma {:induction false} FoldMatches(l: Image, v: Image, es: seq<Event>)
    requires Matches(l.jobs, v.jobs)
    ensures Matches(FoldFrom(l, es).jobs, FoldFrom(v, es).jobs)
  {
    if es != [] {
      FoldMatches(l, v, es[..|es| - 1]);
      EffectMatches(FoldFrom(l, es[..|es| - 1]), FoldFrom(v, es[..|es| - 1]), es[|es| - 1]);
    }
  }

  lemma ReleaseKeepsRelations(l: Image, v: Image, now: Time)
    ensures Follows(l, v) ==> Follows(l, Release(v, now))
    ensures Matches(l.jobs, v.jobs) ==> Matches(l.jobs, Release(v, now).jobs)
  {
  }

  /** Two job maps that agree on everything a client can rely on, and on every retry schedule the log still holds. */
  ghost predicate Agree(l: map<Id, Job>, x: map<Id, Job>, y: map<Id, Job>) {
    && l.Keys == x.Keys == y.Keys
    && forall id :: id in l ==> AgreeOn(l[id], x[id], y[id])
  }

  ghost predicate AgreeOn(l: Job, x: Job, y: Job) {
    && x.spec == y.spec && x.attempt == y.attempt && x.epoch == y.epoch && x.state == y.state
    && (l.state != Leased && l.state != Done ==> x.eligibleAt == y.eligibleAt && x.lastError == y.lastError)
  }

  lemma StrongAgree(l: Job, a: Job, b: Job, now: Time, later: Time)
    requires Strong(l, a) && Strong(l, b)
    ensures AgreeOn(l, Released(a, now), Released(b, later))
  {
  }

  /** Two states related to the same log agree once their leases are released. */
  lemma RecoveriesAgree(l: map<Id, Job>, a: Image, b: Image, now: Time, later: Time)
    requires Matches(l, a.jobs) && Matches(l, b.jobs)
    ensures Agree(l, Release(a, now).jobs, Release(b, later).jobs)
  {
    hide Strong;
    forall id | id in l
      ensures AgreeOn(l[id], Released(a.jobs[id], now), Released(b.jobs[id], later))
    {
      StrongAgree(l[id], a.jobs[id], b.jobs[id], now, later);
    }
  }

  lemma CloseMatches(l: map<Id, Job>, a: map<Id, Job>, b: map<Id, Job>)
    requires Matches(l, a) && CloseMaps(a, b)
    ensures Matches(l, b)
  {
    forall id | id in l
      ensures Strong(l[id], b[id])
    {
      assert Strong(l[id], a[id]) && Close(a[id], b[id]);
    }
  }

  lemma {:induction false} FoldCeiling(m: Image, m': Image, es: seq<Event>)
    requires m.ceiling == m'.ceiling
    ensures FoldFrom(m, es).ceiling == FoldFrom(m', es).ceiling
  {
    if es != [] {
      FoldCeiling(m, m', es[..|es| - 1]);
    }
  }

  lemma LoadedIdemIsExact(snap: Snapshot, l: Image)
    requires SameSpecs(l.jobs, snap.jobs) && IdemExact(l.jobs, l.idem)
    ensures DeriveIdem(snap.jobs) == l.idem
  {
    var d := DeriveIdem(snap.jobs);
    forall id | id in snap.jobs && snap.jobs[id].spec.key != ""
      ensures KeyOf(snap.jobs[id].spec) in d && d[KeyOf(snap.jobs[id].spec)] == id
    {
      var k := KeyOf(snap.jobs[id].spec);
      assert k in Keys(snap.jobs);
      assert l.idem[k] == id && l.idem[KeyOf(snap.jobs[d[k]].spec)] == d[k];
    }
    assert IdemExact(snap.jobs, d);
    IdemIsDerived(snap.jobs, l.jobs, d, l.idem);
  }

  // -------------------------------------------------------- fuzzy snapshots ---

  /** The fields of a job that change after submission. A snapshot may read each of them at a different moment. */
  datatype Field = FState | FAttempt | FEpoch | FEligible | FExpires | FLeasedBy | FError

  predicate Same(f: Field, a: Job, b: Job) {
    match f
    case FState => a.state == b.state
    case FAttempt => a.attempt == b.attempt
    case FEpoch => a.epoch == b.epoch
    case FEligible => a.eligibleAt == b.eligibleAt
    case FExpires => a.leaseExpiresAt == b.leaseExpiresAt
    case FLeasedBy => a.leasedBy == b.leasedBy
    case FError => a.lastError == b.lastError
  }

  function Copy(f: Field, into: Job, from: Job): (j: Job)
    ensures j.spec == into.spec && Same(f, j, from) && forall g :: g != f ==> Same(g, j, into)
  {
    match f
    case FState => into.(state := from.state)
    case FAttempt => into.(attempt := from.attempt)
    case FEpoch => into.(epoch := from.epoch)
    case FEligible => into.(eligibleAt := from.eligibleAt)
    case FExpires => into.(leaseExpiresAt := from.leaseExpiresAt)
    case FLeasedBy => into.(leasedBy := from.leasedBy)
    case FError => into.(lastError := from.lastError)
  }

  /** Which fields of which job an event overwrites. */
  predicate Writes(e: Event, id: Id, f: Field) {
    match e
    case Submit(j) => j.spec.id == id
    case Lease(x, _, _, _, _) => x == id && f != FEligible && f != FError
    case Ack(x, _) => x == id && (f == FState || f == FLeasedBy || f == FExpires)
    case Fail(x, _, _, _, _, _, _) => x == id && f != FEpoch
    case ReplayJob(x, _) => x == id && f != FEpoch
    case EpochReserve(_) => false
  }

  ghost predicate Written(es: seq<Event>, id: Id, f: Field) {
    exists i :: 0 <= i < |es| && Writes(es[i], id, f)
  }

  /** Writes says exactly which fields an event may change, and what it writes does not depend on what was there. */
  lemma EffectByField(m: Image, m': Image, e: Event, id: Id, f: Field)
    requires id in m.jobs && id in m'.jobs
    ensures id in Effect(m, e).jobs && id in Effect(m', e).jobs
    ensures if Writes(e, id, f) then Same(f, Effect(m, e).jobs[id], Effect(m', e).jobs[id])
            else Same(f, Effect(m, e).jobs[id], m.jobs[id]) && Same(f, Effect(m', e).jobs[id], m'.jobs[id])
  {
    EffectOnJob(m, e, id);
    EffectOnJob(m', e, id);
    hide Effect;
    if About(e, id) {
      JobEffectByField(m.jobs[id], m'.jobs[id], e, id, f);
    }
  }

  predicate About(e: Event, id: Id) {
    match e
    case Submit(j) => j.spec.id == id
    case EpochReserve(_) => false
    case _ => e.id == id
  }

  lemma EffectOnJob(m: Image, e: Event, id: Id)
    requires id in m.jobs
    ensures id in Effect(m, e).jobs
    ensures Effect(m, e).jobs[id] == if About(e, id) then JobEffect(m.jobs[id], e) else m.jobs[id]
  {
  }

  lemma JobEffectByField(j: Job, j': Job, e: Event, id: Id, f: Field)
    requires About(e, id)
    ensures if Writes(e, id, f) then Same(f, JobEffect(j, e), JobEffect(j', e))
            else Same(f, JobEffect(j, e), j) && Same(f, JobEffect(j', e), j')
  {
  }

  lemma {:induction false} FoldByField(m: Image, m': Image, es: seq<Event>, id: Id, f: Field)
    requires id in m.jobs && id in m'.jobs
    ensures id in FoldFrom(m, es).jobs && id in FoldFrom(m', es).jobs
    ensures if Written(es, id, f) then Same(f, FoldFrom(m, es).jobs[id], FoldFrom(m', es).jobs[id])
            else Same(f, FoldFrom(m, es).jobs[id], m.jobs[id]) && Same(f, FoldFrom(m', es).jobs[id], m'.jobs[id])
  {
    if es != [] {
      var front := es[..|es| - 1];
      var e := es[|es| - 1];
      FoldByField(m, m', front, id, f);
      EffectByField(FoldFrom(m, front), FoldFrom(m', front), e, id, f);
      if Written(es, id, f) && !Writes(e, id, f) {
        var i :| 0 <= i < |es| && Writes(es[i], id, f);
        assert Writes(front[i], id, f);
      } else if !Written(es, id, f) {
        assert forall i :: 0 <= i < |front| ==> front[i] == es[i];
        assert es[|es| - 1] == e;
      }
    }
  }

  /** A job submitted within es folds to the same record whatever the fold started from. */
  lemma {:induction false} FoldOfSubmitted(m: Image, m': Image, es: seq<Event>, id: Id)
    requires id !in m.jobs && id !in m'.jobs
    ensures id in FoldFrom(m, es).jobs <==> id in FoldFrom(m', es).jobs
    ensures id in FoldFrom(m, es).jobs ==> FoldFrom(m, es).jobs[id] == FoldFrom(m', es).jobs[id]
  {
    if es != [] {
      var front, e := es[..|es| - 1], es[|es| - 1];
      FoldOfSubmitted(m, m', front, id);
      SameThere(FoldFrom(m, front), FoldFrom(m', front), e, id);
      hide Effect;
    }
  }

  lemma SameThere(m: Image, m': Image, e: Event, id: Id)
    requires id in m.jobs <==> id in m'.jobs
    requires id in m.jobs ==> m.jobs[id] == m'.jobs[id]
    ensures id in Effect(m, e).jobs <==> id in Effect(m', e).jobs
    ensures id in Effect(m, e).jobs ==> Effect(m, e).jobs[id] == Effect(m', e).jobs[id]
  {
  }

  /** Equal but for the expiry of a running lease, which heartbeats move without logging. */
  predicate Close(a: Job, b: Job) {
    a == b.(leaseExpiresAt := a.leaseExpiresAt) && (a.state != Leased ==> a == b)
  }

  ghost predicate CloseMaps(a: map<Id, Job>, b: map<Id, Job>) {
    a.Keys == b.Keys && forall id :: id in a ==> Close(a[id], b[id])
  }

  lemma EffectKeepsClose(m: Image, m': Image, e: Event)
    requires CloseMaps(m.jobs, m'.jobs)
    ensures CloseMaps(Effect(m, e).jobs, Effect(m', e).jobs)
  {
  }

  lemma ReleaseHidesExpiry(m: Image, m': Image, now: Time)
    requires CloseMaps(m.jobs, m'.jobs)
    ensures Release(m, now).jobs == Release(m', now).jobs
  {
    forall id | id in m.jobs
      ensures Released(m.jobs[id], now) == Released(m'.jobs[id], now)
    {
      assert Close(m.jobs[id], m'.jobs[id]);
    }
  }

  /** A snapshot being encoded: `base` is what the jobs were when the lock was released, `jobs` is what has been read
      of them since, and `read` says which fields those are. */
  ghost predicate Readable(base: map<Id, Job>, jobs: map<Id, Job>, read: set<(Id, Field)>, es: seq<Event>) {
    && SameSpecs(base, jobs)
    && forall id, f ::
         (id, f) in read && id in base && !Written(es, id, f) && !(f == FExpires && base[id].state == Leased)
         ==> Same(f, jobs[id], base[id])
  }

  ghost predicate Complete(base: map<Id, Job>, read: set<(Id, Field)>) {
    forall id, f: Field :: id in base ==> (id, f) in read
  }

  lemma ReadableExtends(base: map<Id, Job>, jobs: map<Id, Job>, read: set<(Id, Field)>, es: seq<Event>,
      more: seq<Event>)
    requires Readable(base, jobs, read, es)
    ensures Readable(base, jobs, read, es + more)
  {
    forall id, f | Written(es, id, f)
      ensures Written(es + more, id, f)
    {
      var i :| 0 <= i < |es| && Writes(es[i], id, f);
      assert (es + more)[i] == es[i];
    }
  }

  /** Whatever changes the state of a job also overwrites its expiry, so an expiry no event wrote belongs to a state no
      event changed. */
  lemma ExpiryFollowsState(es: seq<Event>, id: Id)
    ensures Written(es, id, FExpires) <==> Written(es, id, FState)
  {
    if Written(es, id, FExpires) {
      var i :| 0 <= i < |es| && Writes(es[i], id, FExpires);
      assert Writes(es[i], id, FState);
    }
    if Written(es, id, FState) {
      var i :| 0 <= i < |es| && Writes(es[i], id, FState);
      assert Writes(es[i], id, FExpires);
    }
  }

  /** Reading a field of a live job now, when the live jobs are what the events since capture made of base. */
  lemma ReadKeepsReadable(b: Image, jobs: map<Id, Job>, read: set<(Id, Field)>, es: seq<Event>, live: map<Id, Job>,
      id: Id, f: Field)
    requires Readable(b.jobs, jobs, read, es) && CloseMaps(FoldFrom(b, es).jobs, live)
    requires id in b.jobs && id in live
    ensures Readable(b.jobs, jobs[id := Copy(f, jobs[id], live[id])], read + {(id, f)}, es)
  {
    hide FoldFrom, Written;
    FoldByField(b, b, es, id, f);
    FoldByField(b, b, es, id, FState);
    ExpiryFollowsState(es, id);
    assert Close(FoldFrom(b, es).jobs[id], live[id]);
    assert !Written(es, id, f) && !(f == FExpires && b.jobs[id].state == Leased) ==> Same(f, live[id], b.jobs[id]);
  }

  /** However the fields were gathered, replaying the events that followed the capture erases the difference: the mixed
      snapshot and the state at capture fold to jobs that differ in nothing but the expiry of a running lease. */
  lemma FuzzySnapshotConverges(b: Image, x: Image, read: set<(Id, Field)>, es: seq<Event>)
    requires Readable(b.jobs, x.jobs, read, es) && Complete(b.jobs, read)
    ensures CloseMaps(FoldFrom(b, es).jobs, FoldFrom(x, es).jobs)
  {
    var l, r := FoldFrom(b, es).jobs, FoldFrom(x, es).jobs;
    forall id | id in l || id in r
      ensures id in l && id in r && Close(l[id], r[id])
    {
      if id in b.jobs {
        FuzzyJobConverges(b, x, read, es, id);
      } else {
        FoldOfSubmitted(b, x, es, id);
      }
    }
  }

  /** So once leases are released the mixed snapshot is as good as one taken in an instant. */
  lemma FuzzySnapshotRecovers(b: Image, x: Image, read: set<(Id, Field)>, es: seq<Event>, now: Time)
    requires Readable(b.jobs, x.jobs, read, es) && Complete(b.jobs, read)
    ensures Release(FoldFrom(x, es), now).jobs == Release(FoldFrom(b, es), now).jobs
  {
    FuzzySnapshotConverges(b, x, read, es);
    ReleaseHidesExpiry(FoldFrom(b, es), FoldFrom(x, es), now);
  }

  lemma FuzzyJobConverges(b: Image, x: Image, read: set<(Id, Field)>, es: seq<Event>, id: Id)
    requires Readable(b.jobs, x.jobs, read, es) && Complete(b.jobs, read) && id in b.jobs
    ensures id in FoldFrom(b, es).jobs && id in FoldFrom(x, es).jobs
    ensures Close(FoldFrom(b, es).jobs[id], FoldFrom(x, es).jobs[id])
  {
    hide FoldFrom, Written, Writes;
    FoldFields(b, x, read, es, id, FState);
    FoldFields(b, x, read, es, id, FAttempt);
    FoldFields(b, x, read, es, id, FEpoch);
    FoldFields(b, x, read, es, id, FEligible);
    FoldFields(b, x, read, es, id, FExpires);
    FoldFields(b, x, read, es, id, FLeasedBy);
    FoldFields(b, x, read, es, id, FError);
    FoldSpec(b, x, es, id);
  }

  lemma FoldFields(b: Image, x: Image, read: set<(Id, Field)>, es: seq<Event>, id: Id, f: Field)
    requires Readable(b.jobs, x.jobs, read, es) && Complete(b.jobs, read) && id in b.jobs
    ensures id in FoldFrom(b, es).jobs && id in FoldFrom(x, es).jobs
    ensures (f == FExpires && FoldFrom(b, es).jobs[id].state == Leased)
      || Same(f, FoldFrom(b, es).jobs[id], FoldFrom(x, es).jobs[id])
  {
    FoldByField(b, x, es, id, f);
    if f == FExpires && !Written(es, id, f) {
      ExpiryFollowsState(es, id);
      FoldByField(b, x, es, id, FState);
    }
    assert (id, f) in read;
  }

  lemma {:induction false} FoldSpec(b: Image, x: Image, es: seq<Event>, id: Id)
    requires id in b.jobs && id in x.jobs && b.jobs[id].spec == x.jobs[id].spec
    ensures id in FoldFrom(b, es).jobs && id in FoldFrom(x, es).jobs
    ensures FoldFrom(b, es).jobs[id].spec == FoldFrom(x, es).jobs[id].spec
  {
    if es != [] {
      FoldSpec(b, x, es[..|es| - 1], id);
    }
  }

  // ----------------------------------------------------- when a snapshot fits ---

  ghost predicate Touched(es: seq<Event>, id: Id) {
    exists i :: 0 <= i < |es| && About(es[i], id)
  }

  /** A snapshot fits the records replayed over it: every job they leave alone is in it as the log had it, and every
      other job has at least the attempt and the token right that they do not overwrite. */
  ghost predicate Fits(base: map<Id, Job>, snap: map<Id, Job>, es: seq<Event>) {
    forall id :: id in base && id in snap ==> FitsAt(base[id], snap[id], es, id)
  }

  ghost predicate FitsAt(b: Job, x: Job, es: seq<Event>, id: Id) {
    if Touched(es, id)
    then (Written(es, id, FAttempt) || b.attempt == x.attempt) && (Written(es, id, FEpoch) || b.epoch == x.epoch)
    else Strong(b, x)
  }

  /** A lease overwrites both, so it brings a job in line whatever the snapshot had of it. */
  lemma LeaseHeals(b: Job, x: Job, es: seq<Event>, id: Id, i: nat)
    requires i < |es| && es[i].Lease? && es[i].id == id
    ensures FitsAt(b, x, es, id)
  {
    assert Writes(es[i], id, FAttempt) && Writes(es[i], id, FEpoch) && About(es[i], id);
  }

  /** Whatever names a job overwrites its state. */
  lemma TouchedIsWritten(es: seq<Event>, id: Id)
    ensures Touched(es, id) <==> Written(es, id, FState)
    ensures Written(es, id, FEligible) <==> Written(es, id, FError)
    ensures forall f :: Written(es, id, f) ==> Touched(es, id)
  {
    if i :| 0 <= i < |es| && About(es[i], id) {
      assert Writes(es[i], id, FState);
    }
    forall f | Written(es, id, f)
      ensures Touched(es, id)
    {
      var i :| 0 <= i < |es| && Writes(es[i], id, f);
      assert About(es[i], id);
    }
    if Written(es, id, FEligible) {
      var i :| 0 <= i < |es| && Writes(es[i], id, FEligible);
      assert Writes(es[i], id, FError);
    }
    if Written(es, id, FError) {
      var i :| 0 <= i < |es| && Writes(es[i], id, FError);
      assert Writes(es[i], id, FEligible);
    }
  }

  /** Only leases and acks leave the schedule alone, so a job touched without being rescheduled is leased or done. */
  lemma {:induction false} UnscheduledIsBusy(m: Image, es: seq<Event>, id: Id)
    requires id in m.jobs && Touched(es, id) && !Written(es, id, FEligible)
    ensures id in FoldFrom(m, es).jobs && (FoldFrom(m, es).jobs[id].state == Leased
      || FoldFrom(m, es).jobs[id].state == Done)
  {
    var front, e := es[..|es| - 1], es[|es| - 1];
    FoldByField(m, m, front, id, FState);
    EffectOnJob(FoldFrom(m, front), e, id);
    assert !Writes(e, id, FEligible);
    if !About(e, id) {
      var i :| 0 <= i < |es| && About(es[i], id);
      assert About(front[i], id);
      assert forall k :: 0 <= k < |front| ==> front[k] == es[k];
      UnscheduledIsBusy(m, front, id);
    }
  }

  /** At one job: what is replayed over two states of it makes them match if and only if the second fits. */
  lemma FoldMatchesAt(b: Image, x: Image, es: seq<Event>, id: Id)
    requires id in b.jobs && id in x.jobs && b.jobs[id].spec == x.jobs[id].spec
    ensures id in FoldFrom(b, es).jobs && id in FoldFrom(x, es).jobs
    ensures Strong(FoldFrom(b, es).jobs[id], FoldFrom(x, es).jobs[id]) <==> FitsAt(b.jobs[id], x.jobs[id], es, id)
  {
    hide FoldFrom, Written, Touched, Writes;
    FoldSpec(b, x, es, id);
    FoldByField(b, x, es, id, FState);
    FoldByField(b, x, es, id, FAttempt);
    FoldByField(b, x, es, id, FEpoch);
    FoldByField(b, x, es, id, FEligible);
    FoldByField(b, x, es, id, FError);
    TouchedIsWritten(es, id);
    if Touched(es, id) && !Written(es, id, FEligible) {
      UnscheduledIsBusy(b, es, id);
    }
  }

  /** Replaying es over the log's own state and over a snapshot of the same jobs gives matching states if and only if
      the snapshot fits es. */
  lemma FoldMatchesIff(b: Image, x: Image, es: seq<Event>)
    requires SameSpecs(b.jobs, x.jobs)
    ensures Matches(FoldFrom(b, es).jobs, FoldFrom(x, es).jobs) <==> Fits(b.jobs, x.jobs, es)
  {
    hide FitsAt, Strong;
    forall id | id in b.jobs
      ensures id in FoldFrom(b, es).jobs && id in FoldFrom(x, es).jobs
      ensures Strong(FoldFrom(b, es).jobs[id], FoldFrom(x, es).jobs[id]) <==> FitsAt(b.jobs[id], x.jobs[id], es, id)
    {
      FoldMatchesAt(b, x, es, id);
    }
    forall id | id !in b.jobs
      ensures id in FoldFrom(b, es).jobs <==> id in FoldFrom(x, es).jobs
      ensures id in FoldFrom(b, es).jobs ==> Strong(FoldFrom(b, es).jobs[id], FoldFrom(x, es).jobs[id])
    {
      FoldOfSubmitted(b, x, es, id);
      StrongItself();
    }
  }

  lemma StrongItself()
    ensures forall j :: Strong(j, j)
  {
  }

  /** Two states agree whenever their leases are released. */
  ghost predicate AlwaysAgree(l: map<Id, Job>, a: Image, b: Image) {
    forall now, later :: Agree(l, Release(a, now).jobs, Release(b, later).jobs)
  }

  /** A state agrees with the log's own whenever the two are released if and only if it matched the log before. */
  lemma AlwaysAgreeIff(a: Image, b: Image)
    ensures AlwaysAgree(b.jobs, a, b) <==> Matches(b.jobs, a.jobs)
  {
    hide Agree, Matches, Release;
    if Matches(b.jobs, a.jobs) {
      MatchesItself(b.jobs);
      forall now, later
        ensures Agree(b.jobs, Release(a, now).jobs, Release(b, later).jobs)
      {
        RecoveriesAgree(b.jobs, a, b, now, later);
      }
    }
    if AlwaysAgree(b.jobs, a, b) {
      AgreeTwice(a, b);
    }
  }

  lemma MatchesItself(jobs: map<Id, Job>)
    ensures Matches(jobs, jobs)
  {
  }

  lemma AgreeTwice(a: Image, b: Image)
    requires AlwaysAgree(b.jobs, a, b)
    ensures Matches(b.jobs, a.jobs)
  {
    assert Agree(b.jobs, Release(a, 0).jobs, Release(b, 0).jobs);
    assert Agree(b.jobs, Release(a, 1).jobs, Release(b, 0).jobs);
    forall id | id in b.jobs
      ensures Strong(b.jobs[id], a.jobs[id])
    {
      assert AgreeOn(b.jobs[id], Released(a.jobs[id], 0), Released(b.jobs[id], 0));
      assert AgreeOn(b.jobs[id], Released(a.jobs[id], 1), Released(b.jobs[id], 0));
    }
  }
}
