/** Jobs, the events that move them, and the state those events fold to.

    IDs are fixed-length hexadecimal strings in the program, so their order is that of the numbers they spell.
    Times count from Go's zero time. */
module Jobs {
  type Id = nat
  type Time = int
  const ZERO_TIME: Time := 0

  datatype JobState = Pending | Leased | RetryWait | Done | DeadLetter

  predicate Leasable(s: JobState) {
    s == Pending || s == RetryWait
  }

  /** The part of a job that is fixed when it is submitted. */
  datatype Spec = Spec(
    id: Id, queue: string, handler: string, payload: string, key: string,
    priority: nat, maxRetries: nat, enqueuedAt: Time)

  datatype Job = Job(
    spec: Spec, attempt: nat, state: JobState, epoch: nat,
    eligibleAt: Time, leaseExpiresAt: Time, leasedBy: string, lastError: string)

  /** What the log holds: each event carries every value it will write, so applying it needs no clock and no choice. */
  datatype Event =
    | Submit(job: Job)
    | Lease(id: Id, epoch: nat, worker: string, expires: Time, attempt: nat)
    | Ack(id: Id, epoch: nat)
    | Fail(id: Id, epoch: nat, attempt: nat, reason: string, next: JobState, eligible: Time, timeout: bool)
    | ReplayJob(id: Id, eligible: Time)
    | EpochReserve(upTo: nat)

  /** The in-memory state that events act on. */
  datatype Image = Image(jobs: map<Id, Job>, idem: map<string, Id>, leased: set<Id>, ceiling: nat)

  const EMPTY := Image(map[], map[], {}, 0)

  function IdemKey(queue: string, key: string): string {
    queue + "\0" + key
  }

  function KeyOf(s: Spec): string {
    IdemKey(s.queue, s.key)
  }

  /** An event other than a submission or a reservation names a job that must already be there. */
  predicate Known(m: Image, e: Event) {
    e.Submit? || e.EpochReserve? || e.id in m.jobs
  }

  function JobEffect(j: Job, e: Event): Job {
    match e
    case Lease(_, epoch, worker, expires, attempt) =>
      j.(state := Leased, epoch := epoch, leasedBy := worker, leaseExpiresAt := expires, attempt := attempt)
    case Ack(_, _) =>
      j.(state := Done, leasedBy := "", leaseExpiresAt := ZERO_TIME)
    case Fail(_, _, attempt, reason, next, eligible, _) =>
      j.(state := next, attempt := attempt, eligibleAt := eligible, lastError := reason,
         leasedBy := "", leaseExpiresAt := ZERO_TIME)
    case ReplayJob(_, eligible) =>
      j.(state := Pending, attempt := 0, eligibleAt := eligible, lastError := "",
         leasedBy := "", leaseExpiresAt := ZERO_TIME)
    case Submit(job) => job
    case EpochReserve(_) => j
  }

  function Touch(m: Image, id: Id, e: Event, leased: set<Id>): Image {
    if id in m.jobs then m.(jobs := m.jobs[id := JobEffect(m.jobs[id], e)], leased := leased) else m
  }

  /** What apply does to the state; an event for an unknown job changes nothing. */
  function Effect(m: Image, e: Event): Image {
    match e
    case Submit(j) =>
      m.(jobs := m.jobs[j.spec.id := j],
         idem := if j.spec.key != "" then m.idem[KeyOf(j.spec) := j.spec.id] else m.idem)
    case EpochReserve(upTo) => m.(ceiling := upTo)
    case Lease(id, _, _, _, _) => Touch(m, id, e, m.leased + {id})
    case Ack(id, _) => Touch(m, id, e, m.leased - {id})
    case Fail(id, _, _, _, _, _, _) => Touch(m, id, e, m.leased - {id})
    case ReplayJob(id, _) => Touch(m, id, e, m.leased - {id})
  }

  /** What each event writes into the job it names, field by field; everything else stays. */
  lemma EffectWrites(m: Image, e: Event)
    ensures e.Submit? ==> Effect(m, e).jobs == m.jobs[e.job.spec.id := e.job] && Effect(m, e).leased == m.leased
    ensures e.Lease? && e.id in m.jobs ==>
      && Effect(m, e).jobs == m.jobs[e.id := m.jobs[e.id].(state := Leased, epoch := e.epoch, attempt := e.attempt,
                                                           leasedBy := e.worker, leaseExpiresAt := e.expires)]
      && Effect(m, e).leased == m.leased + {e.id}
    ensures e.Ack? && e.id in m.jobs ==>
      && Effect(m, e).jobs == m.jobs[e.id := m.jobs[e.id].(state := Done, leasedBy := "", leaseExpiresAt := 0)]
      && Effect(m, e).leased == m.leased - {e.id}
    ensures e.Fail? && e.id in m.jobs ==>
      && Effect(m, e).jobs == m.jobs[e.id := m.jobs[e.id].(state := e.next, attempt := e.attempt,
                                                           eligibleAt := e.eligible, lastError := e.reason, leasedBy :=
                                                             "", leaseExpiresAt := 0)]
      && Effect(m, e).leased == m.leased - {e.id}
    ensures e.ReplayJob? && e.id in m.jobs ==>
      && Effect(m, e).jobs == m.jobs[e.id := m.jobs[e.id].(state := Pending, attempt := 0, eligibleAt := e.eligible,
                                                           lastError := "", leasedBy := "", leaseExpiresAt := 0)]
      && Effect(m, e).leased == m.leased - {e.id}
    ensures e.EpochReserve? ==> Effect(m, e) == m.(ceiling := e.upTo)
    ensures !Known(m, e) ==> Effect(m, e) == m
    ensures !e.EpochReserve? ==> Effect(m, e).ceiling == m.ceiling
    ensures !e.Submit? || e.job.spec.key == "" ==> Effect(m, e).idem == m.idem
  {
  }

  function FoldFrom(m: Image, es: seq<Event>): Image {
    if es == [] then m else Effect(FoldFrom(m, es[..|es| - 1]), es[|es| - 1])
  }

  function Fold(es: seq<Event>): Image {
    FoldFrom(EMPTY, es)
  }

  lemma FoldSnoc(m: Image, es: seq<Event>, e: Event)
    ensures FoldFrom(m, es + [e]) == Effect(FoldFrom(m, es), e)
  {
    assert (es + [e])[..|es|] == es;
  }

  lemma {:induction false} FoldConcat(m: Image, a: seq<Event>, b: seq<Event>)
    ensures FoldFrom(m, a + b) == FoldFrom(FoldFrom(m, a), b)
  {
    if b == [] {
      assert a + b == a;
    } else {
      var front := b[..|b| - 1];
      assert (a + b)[..|a + b| - 1] == a + front;
      FoldConcat(m, a, front);
    }
  }

  // ---------------------------------------------------- legitimate events ---

  predicate Fresh(j: Job) {
    j.attempt == 0 && j.state == Pending && j.epoch == 0 && j.leaseExpiresAt == ZERO_TIME && j.leasedBy == ""
      && j.lastError == ""
  }

  predicate HoldsLease(j: Job, epoch: nat) {
    j.state == Leased && j.epoch == epoch
  }

  /** The one rule for a failed delivery, whether reported or timed out. */
  function NextState(j: Job): JobState {
    if j.attempt > j.spec.maxRetries then DeadLetter else RetryWait
  }

  /** The events the store's operations record, given the state they see under the lock. */
  predicate Legit(m: Image, nextEpoch: nat, e: Event) {
    match e
    case Submit(j) => Fresh(j) && j.spec.id !in m.jobs && (j.spec.key != "" ==> KeyOf(j.spec) !in m.idem)
    case Lease(id, epoch, _, _, attempt) =>
      id in m.jobs && Leasable(m.jobs[id].state) && epoch == nextEpoch <= m.ceiling && attempt == m.jobs[id].attempt + 1
    case Ack(id, epoch) => id in m.jobs && HoldsLease(m.jobs[id], epoch)
    case Fail(id, epoch, attempt, _, next, _, _) =>
      id in m.jobs && HoldsLease(m.jobs[id], epoch) && attempt == m.jobs[id].attempt && next == NextState(m.jobs[id])
    case ReplayJob(id, _) => id in m.jobs && m.jobs[id].state == DeadLetter
    case EpochReserve(_) => false
  }

  /** What is left of Legit when only the log is consulted: every record is about a known, unfinished job, submissions
      are of new jobs under new keys, and ceilings rise. */
  predicate Sound(m: Image, e: Event) {
    match e
    case Submit(j) => Fresh(j) && j.spec.id !in m.jobs && (j.spec.key != "" ==> KeyOf(j.spec) !in m.idem)
    case EpochReserve(upTo) => m.ceiling < upTo
    case _ => e.id in m.jobs && m.jobs[e.id].state != Done
  }

  /** What replay needs of a record: it names a job that is there, or submits one under a new ID and key. */
  predicate Applicable(m: Image, e: Event) {
    Known(m, e) && (e.Submit? ==> e.job.spec.id !in m.jobs && (e.job.spec.key != "" ==> KeyOf(e.job.spec) !in m.idem))
  }

  ghost predicate SoundLog(log: seq<Event>) {
    forall i :: 0 <= i < |log| ==> Sound(Fold(log[..i]), log[i])
  }

  lemma SoundSnoc(log: seq<Event>, e: Event)
    requires SoundLog(log) && Sound(Fold(log), e)
    ensures SoundLog(log + [e]) && Fold(log + [e]) == Effect(Fold(log), e)
  {
    FoldSnoc(EMPTY, log, e);
    assert log[..|log|] == log;
    forall i | 0 <= i < |log + [e]|
      ensures Sound(Fold((log + [e])[..i]), (log + [e])[i])
    {
      assert (log + [e])[..i] == log[..i];
    }
  }

  lemma SoundPrefix(log: seq<Event>, k: nat)
    requires SoundLog(log) && k <= |log|
    ensures SoundLog(log[..k])
  {
    forall i | 0 <= i < k
      ensures Sound(Fold(log[..k][..i]), log[..k][i])
    {
      assert log[..k][..i] == log[..i];
    }
  }

  /** Folding one more record of a log. */
  lemma FoldNext(log: seq<Event>, i: nat)
    requires i < |log|
    ensures Fold(log[..i + 1]) == Effect(Fold(log[..i]), log[i])
  {
    FoldSnoc(EMPTY, log[..i], log[i]);
    assert log[..i] + [log[i]] == log[..i + 1];
  }

  lemma CeilingStep(m: Image, e: Event)
    requires Sound(m, e)
    ensures m.ceiling <= Effect(m, e).ceiling
  {
  }

  lemma {:induction false} CeilingRises(log: seq<Event>, i: nat, j: nat)
    requires SoundLog(log) && i <= j <= |log|
    ensures Fold(log[..i]).ceiling <= Fold(log[..j]).ceiling
    decreases j
  {
    hide Fold, SoundLog, Effect, Sound;
    if i < j {
      CeilingRises(log, i, j - 1);
      SoundAt(log, j - 1);
      CeilingStep(Fold(log[..j - 1]), log[j - 1]);
    }
  }

  lemma SpecStays(m: Image, e: Event, id: Id)
    requires Sound(m, e) && id in m.jobs
    ensures id in Effect(m, e).jobs && Effect(m, e).jobs[id].spec == m.jobs[id].spec
  {
  }

  lemma SubmitAdds(m: Image, j: Job)
    ensures j.spec.id in Effect(m, Submit(j)).jobs && Effect(m, Submit(j)).jobs[j.spec.id] == j
  {
  }

  lemma DoneStays(m: Image, e: Event, id: Id)
    requires Sound(m, e) && id in m.jobs && m.jobs[id].state == Done
    ensures id in Effect(m, e).jobs && Effect(m, e).jobs[id].state == Done
  {
  }

  lemma SoundAt(log: seq<Event>, n: nat)
    requires SoundLog(log) && n < |log|
    ensures Sound(Fold(log[..n]), log[n]) && Fold(log[..n + 1]) == Effect(Fold(log[..n]), log[n])
  {
    FoldNext(log, n);
  }

  /** A submitted job never disappears from the fold, and what was fixed at submission never changes. */
  lemma {:induction false} SubmittedStays(log: seq<Event>, n: nat, k: nat)
    requires SoundLog(log) && n < k <= |log| && log[n].Submit?
    ensures var id := log[n].job.spec.id; id in Fold(log[..k]).jobs && Fold(log[..k]).jobs[id].spec == log[n].job.spec
    decreases k
  {
    hide Fold, SoundLog, Effect, Sound;
    SoundAt(log, k - 1);
    if n + 1 < k {
      SubmittedStays(log, n, k - 1);
      SpecStays(Fold(log[..k - 1]), log[k - 1], log[n].job.spec.id);
    } else {
      SubmitAdds(Fold(log[..n]), log[n].job);
    }
  }

  lemma AckMakesDone(m: Image, e: Event)
    requires Sound(m, e) && e.Ack?
    ensures e.id in Effect(m, e).jobs && Effect(m, e).jobs[e.id].state == Done
  {
  }

  /** An acknowledged job is Done in the fold of every longer prefix. */
  lemma {:induction false} AckedStaysDone(log: seq<Event>, n: nat, k: nat)
    requires SoundLog(log) && n < k <= |log| && log[n].Ack?
    ensures log[n].id in Fold(log[..k]).jobs && Fold(log[..k]).jobs[log[n].id].state == Done
    decreases k
  {
    hide Fold, SoundLog, Effect, Sound;
    SoundAt(log, k - 1);
    if n + 1 < k {
      AckedStaysDone(log, n, k - 1);
      DoneStays(Fold(log[..k - 1]), log[k - 1], log[n].id);
    } else {
      AckMakesDone(Fold(log[..n]), log[n]);
    }
  }

  // ----------------------------------------------------------- idempotency ---

  /** Jobs sit under their own IDs, and idem maps exactly the keys of keyed jobs, each to its one job. */
  ghost predicate IdemExact(jobs: map<Id, Job>, idem: map<string, Id>) {
    && (forall id :: id in jobs ==> jobs[id].spec.id == id)
    && (forall k :: k in idem ==> idem[k] in jobs && jobs[idem[k]].spec.key != "" && KeyOf(jobs[idem[k]].spec) == k)
    && (forall id :: id in jobs && jobs[id].spec.key != "" ==>
          KeyOf(jobs[id].spec) in idem && idem[KeyOf(jobs[id].spec)] == id)
  }

  ghost predicate SameSpecs(a: map<Id, Job>, b: map<Id, Job>) {
    a.Keys == b.Keys && forall id :: id in a ==> a[id].spec == b[id].spec
  }

  lemma EffectKeepsIdem(m: Image, e: Event)
    requires IdemExact(m.jobs, m.idem) && Applicable(m, e)
    ensures IdemExact(Effect(m, e).jobs, Effect(m, e).idem)
  {
    if e.Submit? {
      SubmitKeepsIdem(m, e.job);
    } else {
      SpecsSuffice(m.jobs, Effect(m, e).jobs, m.idem);
    }
  }

  lemma SubmitKeepsIdem(m: Image, j: Job)
    requires IdemExact(m.jobs, m.idem) && Applicable(m, Submit(j))
    ensures IdemExact(Effect(m, Submit(j)).jobs, Effect(m, Submit(j)).idem)
  {
  }

  lemma SpecsSuffice(a: map<Id, Job>, b: map<Id, Job>, idem: map<string, Id>)
    requires IdemExact(a, idem) && SameSpecs(a, b)
    ensures IdemExact(b, idem)
  {
  }

  lemma {:induction false} FoldIdemExact(log: seq<Event>)
    requires SoundLog(log)
    ensures IdemExact(Fold(log).jobs, Fold(log).idem)
  {
    if log != [] {
      var n := |log| - 1;
      SoundPrefix(log, n);
      FoldIdemExact(log[..n]);
      assert log[..n + 1] == log;
      FoldNext(log, n);
      EffectKeepsIdem(Fold(log[..n]), log[n]);
    }
  }

  /** The map is a function of the jobs, whatever order they are loaded in. */
  lemma IdemIsDerived(a: map<Id, Job>, b: map<Id, Job>, i: map<string, Id>, j: map<string, Id>)
    requires SameSpecs(a, b) && IdemExact(a, i) && IdemExact(b, j)
    ensures i == j
  {
    forall k | k in i
      ensures k in j && j[k] == i[k]
    {
    }
    forall k | k in j
      ensures k in i
    {
    }
  }

  /** There is never more than one job for a queue and key. */
  lemma OneJobPerKey(jobs: map<Id, Job>, idem: map<string, Id>, x: Id, y: Id)
    requires IdemExact(jobs, idem) && x in jobs && y in jobs
    requires jobs[x].spec.key != "" && jobs[x].spec.key == jobs[y].spec.key && jobs[x].spec.queue == jobs[y].spec.queue
    ensures x == y
  {
  }

  /** Two queue names can share an idempotency key string exactly when one continues the other after a NUL. Names
      without a NUL therefore never do, and a deduplicated submission returns a job of its own queue and key. */
  lemma KeysCollideIff(q1: string, q2: string)
    requires q1 != q2
    ensures (exists k1, k2 :: k1 != "" && k2 != "" && IdemKey(q1, k1) == IdemKey(q2, k2))
       <==> (q1 + "\0" <= q2 || q2 + "\0" <= q1)
  {
    if q1 + "\0" <= q2 {
      CollisionOf(q1, q2);
    }
    if q2 + "\0" <= q1 {
      CollisionOf(q2, q1);
    }
    forall k1: string, k2: string | IdemKey(q1, k1) == IdemKey(q2, k2)
      ensures q1 + "\0" <= q2 || q2 + "\0" <= q1
    {
      CollisionForm(q1, k1, q2, k2);
    }
  }

  predicate NulFree(q: string) {
    '\0' !in q
  }

  lemma ContinuationHasNul(p: string, q: string)
    requires p + "\0" <= q
    ensures !NulFree(q)
  {
    assert q[|p|] == '\0';
  }

  /** So a submission deduplicated by its key string finds a job of its own queue and key. */
  lemma DedupIsFaithful(q1: string, k1: string, q2: string, k2: string)
    requires NulFree(q1) && NulFree(q2) && IdemKey(q1, k1) == IdemKey(q2, k2)
    ensures q1 == q2 && k1 == k2
  {
    if q1 != q2 {
      CollisionForm(q1, k1, q2, k2);
      if q1 + "\0" <= q2 {
        ContinuationHasNul(q1, q2);
      } else {
        ContinuationHasNul(q2, q1);
      }
    }
    assert IdemKey(q1, k1)[|q1| + 1..] == k1 && IdemKey(q2, k2)[|q2| + 1..] == k2;
  }

  lemma CollisionOf(q1: string, q2: string)
    requires q1 + "\0" <= q2
    ensures exists k1, k2 :: k1 != "" && k2 != "" && IdemKey(q1, k1) == IdemKey(q2, k2)
  {
    var k1 := q2[|q1| + 1..] + "\0k";
    assert q2 == q1 + "\0" + q2[|q1| + 1..];
    assert IdemKey(q1, k1) == IdemKey(q2, "k");
  }

  lemma CollisionForm(q1: string, k1: string, q2: string, k2: string)
    requires IdemKey(q1, k1) == IdemKey(q2, k2) && q1 != q2
    ensures q1 + "\0" <= q2 || q2 + "\0" <= q1
  {
    var s := IdemKey(q1, k1);
    assert s[..|q1|] == q1 && s[..|q2|] == q2;
    assert s[|q1|] == '\0' && s[|q2|] == '\0';
    if |q1| < |q2| {
      assert q2[..|q1| + 1] == s[..|q1| + 1] == q1 + "\0";
    } else if |q2| < |q1| {
      assert q1[..|q2| + 1] == s[..|q2| + 1] == q2 + "\0";
    }
  }
}
