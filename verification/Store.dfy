/** The job store: operations that update the state in place under the lock.

    Each method is an operation's critical section. The flush that follows it, without the lock, is CommitDurable here
    and a protocol of its own in GroupCommit; System interleaves the two. The clock, the fresh ID, the jitter draw and
    the success of an append are arguments. */
module Store {
  import opened Options
  import opened Jobs
  import opened Recovery
  import opened Schedule
  import B = Backoff
  import G = GroupCommit

  datatype SubmitParams = SubmitParams(queue: string, handler: string, payload: string, key: string,
                                       priority: nat, maxRetries: int, delay: int)

  datatype SubmitReply = QueueRequired | SubmitRefused | Duplicate(job: Job) | Accepted(job: Job)
  datatype LeaseReply = Nothing | LeaseRefused | Granted(job: Job)
  datatype AckReply = NotFound | Fenced | NotLogged | Acked
  datatype NackReply = NackNotFound | NackFenced | NackNotLogged | Nacked(dead: bool)
  datatype BeatReply = BeatNotFound | BeatFenced | Extended(until: Time)
  datatype ReplayReply = ReplayNotFound | NotDeadLettered | ReplayNotLogged | Replayed

  /** How the append and flush of a token reservation went. */
  datatype Claim = NotAppended | NotFlushed | Flushed

  const DEFAULT_EPOCH_BLOCK := 0x10_0000

  predicate IsSpace(c: char) {
    c in " \t\n\r" || c in ['\U{0B}', '\U{0C}', '\U{85}', '\U{A0}', '\U{1680}', '\U{2028}', '\U{2029}', '\U{202F}',
      '\U{205F}', '\U{3000}']
    || '\U{2000}' <= c <= '\U{200A}'
  }

  predicate BlankName(queue: string) {
    forall i :: 0 <= i < |queue| ==> IsSpace(queue[i])
  }

  function NewJob(p: SubmitParams, id: Id, now: Time): Job {
    Job(Spec(id, p.queue, if p.handler == "" then "shell" else p.handler, p.payload, p.key, p.priority,
             if p.maxRetries < 0 then 0 else p.maxRetries, now),
        0, Pending, 0, now + p.delay, ZERO_TIME, "", "")
  }

  /** What failLocked logs: the attempt was charged at the lease, and only the budget decides where the job goes. */
  function FailEvent(j: Job, reason: string, timeout: bool, now: Time, delay: int): Event {
    Fail(j.spec.id, j.epoch, j.attempt, reason, NextState(j), if NextState(j) == DeadLetter then now else now + delay,
      timeout)
  }

  function NackEvent(j: Job, reason: string, now: Time, delay: int): Event {
    FailEvent(j, if reason == "" then "handler reported failure" else reason, false, now, delay)
  }

  lemma EffectOnJobs(m: Image, e: Event)
    requires !e.Submit? && !e.EpochReserve? && e.id in m.jobs
    ensures Effect(m, e).jobs == m.jobs[e.id := JobEffect(m.jobs[e.id], e)]
  {
  }

  lemma FailIsLegit(m: Image, nextEpoch: nat, id: Id, reason: string, timeout: bool, now: Time, delay: int)
    requires id in m.jobs && m.jobs[id].state == Leased && m.jobs[id].spec.id == id
    ensures Legit(m, nextEpoch, FailEvent(m.jobs[id], reason, timeout, now, delay))
  {
  }

  lemma LeaseKnows(m: Image, nextEpoch: nat, e: Event)
    requires e.Lease? && Legit(m, nextEpoch, e)
    ensures var jobs := Effect(m, e).jobs; e.id in jobs && jobs[e.id].spec == m.jobs[e.id].spec
  {
  }

  predicate Candidate(j: Job, queue: string, now: Time) {
    Leasable(j.state) && j.spec.queue == queue && j.eligibleAt <= now
  }

  /** The job a linear scan would pick: every other candidate of the queue comes after it. */
  ghost predicate IsBest(jobs: map<Id, Job>, queue: string, now: Time, id: Id) {
    && id in jobs && Candidate(jobs[id], queue, now)
    && forall x :: x in jobs && x != id && Candidate(jobs[x], queue, now) ==>
      ReadyBefore(EntryOf(jobs[id]), EntryOf(jobs[x]))
  }

  /** The job a linear scan would pick, in its own fields: it is waiting, it is due, and any other such job of the
      queue is less urgent, or as urgent and younger, or as urgent and as old and of a higher ID. */
  lemma BestMeans(jobs: map<Id, Job>, queue: string, now: Time, id: Id)
    requires IsBest(jobs, queue, now, id) && OwnIds(jobs)
    ensures id in jobs && var j := jobs[id];
            && (j.state == Pending || j.state == RetryWait) && j.spec.queue == queue && j.eligibleAt <= now
            && forall x :: x in jobs && x != id && (jobs[x].state == Pending || jobs[x].state == RetryWait)
                           && jobs[x].spec.queue == queue && jobs[x].eligibleAt <= now ==>
                 || jobs[x].spec.priority < j.spec.priority
                 || (jobs[x].spec.priority == j.spec.priority && j.spec.enqueuedAt < jobs[x].spec.enqueuedAt)
                 || (jobs[x].spec.priority == j.spec.priority && j.spec.enqueuedAt == jobs[x].spec.enqueuedAt && id < x)
  {
    forall x | x in jobs && x != id && Candidate(jobs[x], queue, now)
      ensures ReadyBefore(EntryOf(jobs[id]), EntryOf(jobs[x])) && jobs[x].spec.id == x
    {
    }
  }

  /** And when there is nobody to pick, no job of the queue is both waiting and due. */
  lemma NobodyMeans(jobs: map<Id, Job>, queue: string, now: Time)
    requires forall id :: id in jobs ==> !Candidate(jobs[id], queue, now)
    ensures forall id :: id in jobs && (jobs[id].state == Pending || jobs[id].state == RetryWait) ==>
              jobs[id].spec.queue != queue || now < jobs[id].eligibleAt
  {
    forall id | id in jobs
      ensures !Candidate(jobs[id], queue, now)
    {
    }
  }

  /** What a failed delivery makes of a job: another try after the delay while the budget lasts, and otherwise the
      dead-letter queue at once. The attempt was charged at the lease. */
  lemma FailMeans(m: Image, id: Id, reason: string, timeout: bool, now: Time, delay: int)
    requires id in m.jobs && m.jobs[id].spec.id == id
    ensures var j := m.jobs[id];
            Effect(m, FailEvent(j, reason, timeout, now, delay)).jobs ==
              if j.attempt <= j.spec.maxRetries
              then m.jobs[id := j.(state := RetryWait, eligibleAt := now + delay, lastError := reason, leasedBy := "",
                                   leaseExpiresAt := 0)]
              else m.jobs[id := j.(state := DeadLetter, eligibleAt := now, lastError := reason, leasedBy := "",
                                   leaseExpiresAt := 0)]
    ensures var e := FailEvent(m.jobs[id], reason, timeout, now, delay);
            e.epoch == m.jobs[id].epoch && e.attempt == m.jobs[id].attempt && e.reason == reason && e.timeout == timeout
  {
    EffectWrites(m, FailEvent(m.jobs[id], reason, timeout, now, delay));
  }

  /** A new job is what was asked for, with the two defaults. */
  lemma NewJobMeans(p: SubmitParams, id: Id, now: Time)
    ensures var j := NewJob(p, id, now);
            && j.spec.id == id && j.spec.queue == p.queue && j.spec.payload == p.payload && j.spec.key == p.key
            && j.spec.handler == (if p.handler == "" then "shell" else p.handler) && j.spec.priority == p.priority
            && j.spec.maxRetries == (if p.maxRetries < 0 then 0 else p.maxRetries) && j.spec.enqueuedAt == now
            && j.eligibleAt == now + p.delay && j.state == Pending && j.attempt == 0 && j.epoch == 0
            && j.leasedBy == "" && j.leaseExpiresAt == 0 && j.lastError == ""
  {
  }

  /** A queue name is refused if and only if it has no character but these. */
  lemma BlankIff(queue: string)
    ensures BlankName(queue) <==> forall c :: c in queue ==>
              || c in " \t\n\r" || c == '\U{0B}' || c == '\U{0C}' || c == '\U{85}' || c == '\U{A0}' || c == '\U{1680}'
              || '\U{2000}' <= c <= '\U{200A}' || c == '\U{2028}' || c == '\U{2029}' || c == '\U{202F}'
              || c == '\U{205F}' || c == '\U{3000}'
    ensures BlankName("") && BlankName(" ") && !BlankName("q")
  {
    assert "q"[0] == 'q';
    if BlankName(queue) {
      forall c | c in queue
        ensures IsSpace(c)
      {
        var i :| 0 <= i < |queue| && queue[i] == c;
      }
    } else {
      var i :| 0 <= i < |queue| && !IsSpace(queue[i]);
      assert queue[i] in queue;
    }
  }

  lemma BestIsUnique(jobs: map<Id, Job>, queue: string, now: Time, x: Id, y: Id)
    requires IsBest(jobs, queue, now, x) && IsBest(jobs, queue, now, y)
    ensures x == y
  {
  }

  /** The operations' events keep the idempotency map and the leased set exact. */
  lemma EventFits(m: Image, nextEpoch: nat, e: Event)
    requires IdemExact(m.jobs, m.idem) && m.leased == LeasedIds(m.jobs) && Legit(m, nextEpoch, e)
    ensures IdemExact(Effect(m, e).jobs, Effect(m, e).idem) && Effect(m, e).leased == LeasedIds(Effect(m, e).jobs)
  {
    EffectKeepsIdem(m, e);
    EffectKeepsLeased(m, nextEpoch, e);
  }

  /** Every entry in the heaps copies the fixed key of a job of that queue. */
  ghost predicate IndexHonest(jobs: map<Id, Job>, qs: Queues) {
    forall q, e :: Has(qs, q, e) ==>
      e.id in jobs && jobs[e.id].spec.queue == q && jobs[e.id].spec.priority == e.priority
        && jobs[e.id].spec.enqueuedAt == e.enqueuedAt
  }

  ghost predicate Filed(jobs: map<Id, Job>, qs: Queues, id: Id) {
    id in jobs && Leasable(jobs[id].state) ==> Has(qs, jobs[id].spec.queue, EntryOf(jobs[id]))
  }

  /** No job is stranded: each leasable one has an entry in its own queue's heaps with its current eligibility. */
  ghost predicate NoneStranded(jobs: map<Id, Job>, qs: Queues) {
    forall id :: id in jobs ==> Filed(jobs, qs, id)
  }

  lemma NothingFiled(jobs: map<Id, Job>)
    ensures IndexHonest(jobs, map[])
  {
  }

  lemma PushedHas(qs: Queues, qs': Queues, j: Job, now: Time)
    requires Pushed(qs, qs', j, now)
    ensures forall q, e :: Has(qs', q, e) <==> Has(qs, q, e) || (q == j.spec.queue && e == EntryOf(j))
  {
    forall q, e
      ensures Has(qs', q, e) <==> Has(qs, q, e) || (q == j.spec.queue && e == EntryOf(j))
    {
      if q != j.spec.queue {
        assert Ready(qs', q) == Ready(qs, q) && Delayed(qs', q) == Delayed(qs, q);
      }
    }
  }

  /** Filing the one job an event has touched makes the index fit the new jobs. */
  lemma PushRestores(jobs: map<Id, Job>, qs: Queues, qs': Queues, j: Job, now: Time)
    requires IndexHonest(jobs, qs) && NoneStranded(jobs, qs)
    requires j.spec.id in jobs ==> jobs[j.spec.id].spec == j.spec
    requires Pushed(qs, qs', j, now)
    ensures IndexHonest(jobs[j.spec.id := j], qs') && NoneStranded(jobs[j.spec.id := j], qs')
  {
    PushedHas(qs, qs', j, now);
    hide Has, Pushed;
    var jobs' := jobs[j.spec.id := j];
    forall x | x in jobs'
      ensures Filed(jobs', qs', x)
    {
      if x != j.spec.id {
        assert Filed(jobs, qs, x);
      }
    }
  }

  /** An event that leaves its job unleasable needs no filing. */
  lemma NoPushNeeded(jobs: map<Id, Job>, qs: Queues, id: Id, j: Job)
    requires IndexHonest(jobs, qs) && NoneStranded(jobs, qs)
    requires id in jobs && jobs[id].spec == j.spec
    requires Leasable(j.state) ==> Leasable(jobs[id].state) && j.eligibleAt == jobs[id].eligibleAt
    ensures IndexHonest(jobs[id := j], qs) && NoneStranded(jobs[id := j], qs)
  {
    hide Has;
    var jobs' := jobs[id := j];
    forall x | x in jobs'
      ensures Filed(jobs', qs, x)
    {
      assert x in jobs ==> Filed(jobs, qs, x);
    }
  }

  /** Every job a linear scan could pick now is in the ready heap under its current key. */
  ghost predicate ReadyComplete(jobs: map<Id, Job>, qs: Queues, queue: string, now: Time) {
    forall id :: id in jobs && Candidate(jobs[id], queue, now) ==> EntryOf(jobs[id]) in Ready(qs, queue)
  }

  ghost predicate OthersFiled(jobs: map<Id, Job>, qs: Queues, id: Id) {
    forall x :: x in jobs && x != id ==> Filed(jobs, qs, x)
  }

  ghost predicate OwnIds(jobs: map<Id, Job>) {
    forall id :: id in jobs ==> jobs[id].spec.id == id
  }

  /** An entry is current when it is the one its job would be filed under now. */
  predicate Current(jobs: map<Id, Job>, e: Entry) {
    e.id in jobs && Leasable(jobs[e.id].state) && e == EntryOf(jobs[e.id])
  }

  lemma PromoteFits(jobs: map<Id, Job>, qs: Queues, qs': Queues, queue: string, now: Time)
    requires IndexHonest(jobs, qs) && NoneStranded(jobs, qs) && Promoted(qs, qs', queue, now)
    ensures IndexHonest(jobs, qs') && NoneStranded(jobs, qs') && ReadyComplete(jobs, qs', queue, now)
  {
    forall q, e
      ensures Has(qs', q, e) <==> Has(qs, q, e)
    {
      if q == queue {
        assert (e in Ready(qs', q) + Delayed(qs', q)) == (e in Ready(qs, q) + Delayed(qs, q));
      } else {
        assert Ready(qs', q) == Ready(qs, q) && Delayed(qs', q) == Delayed(qs, q);
      }
    }
    forall id | id in jobs
      ensures Filed(jobs, qs', id) && (Candidate(jobs[id], queue, now) ==> EntryOf(jobs[id]) in Ready(qs', queue))
    {
      assert Filed(jobs, qs, id);
    }
  }

  /** Popping takes one entry and nothing else. */
  lemma PoppedHas(qs: Queues, qs': Queues, queue: string, e: Entry)
    requires Popped(qs, qs', queue, e)
    ensures forall q, x :: (Has(qs', q, x) ==> Has(qs, q, x)) && (Has(qs, q, x) && x != e ==> Has(qs', q, x))
    ensures |Ready(qs', queue)| < |Ready(qs, queue)| && forall x :: x in Ready(qs, queue) && x != e ==>
      x in Ready(qs', queue)
  {
    forall q, x
      ensures (Has(qs', q, x) ==> Has(qs, q, x)) && (Has(qs, q, x) && x != e ==> Has(qs', q, x))
    {
      if q != queue {
        assert Ready(qs', q) == Ready(qs, q) && Delayed(qs', q) == Delayed(qs, q);
      }
    }
  }

  /** Taking an entry out of the ready heap leaves every other job filed, and its own job too unless it was current. */
  lemma PopFits(jobs: map<Id, Job>, qs: Queues, qs': Queues, queue: string, e: Entry, now: Time)
    requires IndexHonest(jobs, qs) && NoneStranded(jobs, qs) && ReadyComplete(jobs, qs, queue, now) && OwnIds(jobs)
    requires Popped(qs, qs', queue, e)
    ensures IndexHonest(jobs, qs') && OthersFiled(jobs, qs', e.id)
    ensures !Current(jobs, e) ==> NoneStranded(jobs, qs') && ReadyComplete(jobs, qs', queue, now)
    ensures |Ready(qs', queue)| < |Ready(qs, queue)|
  {
    PoppedHas(qs, qs', queue, e);
    hide Has, Popped, Ready;
    forall id | id in jobs && (id != e.id || !Current(jobs, e))
      ensures Filed(jobs, qs', id) && (Candidate(jobs[id], queue, now) ==> EntryOf(jobs[id]) in Ready(qs', queue))
    {
      assert Filed(jobs, qs, id);
    }
  }

  /** A current, eligible top of the ready heap is the job the linear scan would pick. */
  lemma TopIsBest(jobs: map<Id, Job>, qs: Queues, queue: string, e: Entry, now: Time)
    requires IndexHonest(jobs, qs) && ReadyComplete(jobs, qs, queue, now) && OwnIds(jobs)
    requires IsReadyTop(Ready(qs, queue), e) && Current(jobs, e) && e.eligibleAt <= now
    ensures IsBest(jobs, queue, now, e.id)
  {
    assert Has(qs, queue, e);
  }

  /** Putting back an entry that was popped before its time keeps every job filed and every candidate ready. */
  lemma RefileFits(jobs: map<Id, Job>, qs: Queues, qs': Queues, queue: string, e: Entry, now: Time)
    requires IndexHonest(jobs, qs) && OthersFiled(jobs, qs, e.id) && OwnIds(jobs)
    requires Current(jobs, e) && jobs[e.id].spec.queue == queue && Pushed(qs, qs', jobs[e.id], now)
    ensures IndexHonest(jobs, qs') && NoneStranded(jobs, qs')
  {
    PushedHas(qs, qs', jobs[e.id], now);
    hide Has, Pushed;
    forall id | id in jobs
      ensures Filed(jobs, qs', id)
    {
      if id != e.id {
        assert Filed(jobs, qs, id);
      }
    }
  }

  lemma RefiledReady(jobs: map<Id, Job>, qs: Queues, qs1: Queues, qs2: Queues, queue: string, e: Entry, now: Time)
    requires ReadyComplete(jobs, qs, queue, now) && OwnIds(jobs) && Popped(qs, qs1, queue, e)
    requires Current(jobs, e) && jobs[e.id].spec.queue == queue && e.eligibleAt > now
      && Pushed(qs1, qs2, jobs[e.id], now)
    ensures ReadyComplete(jobs, qs2, queue, now) && Ready(qs2, queue) == Ready(qs1, queue)
  {
    assert Ready(qs2, queue) == Ready(qs1, queue) + multiset{};
    forall id | id in jobs && Candidate(jobs[id], queue, now)
      ensures EntryOf(jobs[id]) in Ready(qs2, queue)
    {
      assert EntryOf(jobs[id]) != e;
    }
  }

  lemma FiledOneMore(jobs: map<Id, Job>, qs: Queues, qs': Queues, id: Id, now: Time)
    requires IndexHonest(jobs, qs) && OwnIds(jobs) && id in jobs
    requires if Leasable(jobs[id].state) then Pushed(qs, qs', jobs[id], now) else qs == qs'
    ensures IndexHonest(jobs, qs') && Filed(jobs, qs', id)
    ensures forall x :: x in jobs && Filed(jobs, qs, x) ==> Filed(jobs, qs', x)
  {
    if Leasable(jobs[id].state) {
      PushedHas(qs, qs', jobs[id], now);
    }
    hide Has, Pushed;
  }

  lemma LeasedNeedsNoFiling(jobs: map<Id, Job>, qs: Queues, id: Id, j: Job)
    requires IndexHonest(jobs, qs) && OthersFiled(jobs, qs, id)
    requires id in jobs && jobs[id].spec == j.spec && !Leasable(j.state)
    ensures IndexHonest(jobs[id := j], qs) && NoneStranded(jobs[id := j], qs)
  {
    hide Has;
    var jobs' := jobs[id := j];
    forall x | x in jobs'
      ensures Filed(jobs', qs, x)
    {
      assert x in jobs && x != id ==> Filed(jobs, qs, x);
    }
  }

  datatype SweepParams = SweepParams(now: Time, draws: Id -> nat, base: B.Int64, cap: B.Int64)

  ghost predicate Expired(jobs: map<Id, Job>, now: Time, id: Id) {
    id in jobs && jobs[id].state == Leased && jobs[id].leaseExpiresAt <= now
  }

  /** What a timeout logs. */
  ghost function TimeoutEvent(j: Job, p: SweepParams): Event {
    FailEvent(j, "lease expired", true, p.now, B.Backoff(j.attempt, p.base, p.cap, p.draws(j.spec.id)))
  }

  /** The effect of a sweep: each reclaimed job, expired before it, has failed once by timeout; every other job is as it
      was; and the log has grown by exactly those failures, in order. */
  ghost predicate Swept(jobs0: map<Id, Job>, log0: seq<Event>, jobs: map<Id, Job>, log: seq<Event>, reclaimed: seq<Id>,
      p: SweepParams) {
    && (forall i, j :: 0 <= i < j < |reclaimed| ==> reclaimed[i] != reclaimed[j])
    && (forall id :: id in reclaimed ==> Expired(jobs0, p.now, id))
    && jobs.Keys == jobs0.Keys
    && (forall id :: id in jobs0 ==>
          jobs[id] == if id in reclaimed then JobEffect(jobs0[id], TimeoutEvent(jobs0[id], p)) else jobs0[id])
    && log0 <= log && |log| == |log0| + |reclaimed|
    && (forall i :: 0 <= i < |reclaimed| ==>
          reclaimed[i] in jobs0 && log[|log0| + i] == TimeoutEvent(jobs0[reclaimed[i]], p))
  }

  /** What a sweep does to each job it takes back. */
  lemma SweptMeans(jobs0: map<Id, Job>, log0: seq<Event>, jobs: map<Id, Job>, log: seq<Event>, reclaimed: seq<Id>,
                   p: SweepParams, id: Id)
    requires Swept(jobs0, log0, jobs, log, reclaimed, p) && OwnIds(jobs0) && id in reclaimed
    ensures id in jobs0 && id in jobs && jobs0[id].state == Leased && jobs0[id].leaseExpiresAt <= p.now
    ensures var j := jobs0[id];
            var d := B.Delay(j.attempt, p.base, p.cap);
            if j.attempt <= j.spec.maxRetries
            then (&& jobs[id] == j.(state := RetryWait, eligibleAt := jobs[id].eligibleAt, lastError := "lease expired",
                                    leasedBy := "", leaseExpiresAt := 0)
                  && p.now + d / 2 <= jobs[id].eligibleAt <= p.now + d)
            else jobs[id] == j.(state := DeadLetter, eligibleAt := p.now, lastError := "lease expired", leasedBy := "",
                                leaseExpiresAt := 0)
  {
    hide B.Backoff, B.Delay;
    assert Expired(jobs0, p.now, id);
  }

  /** What a sweep logs: one timeout for each job taken back, in that order, under the token of its lease. */
  lemma SweptLog(jobs0: map<Id, Job>, log0: seq<Event>, jobs: map<Id, Job>, log: seq<Event>, reclaimed: seq<Id>,
                 p: SweepParams)
    requires Swept(jobs0, log0, jobs, log, reclaimed, p) && OwnIds(jobs0)
    ensures |log| == |log0| + |reclaimed|
    ensures forall i :: 0 <= i < |reclaimed| ==> TimeoutOf(jobs0, log[|log0| + i], reclaimed[i])
  {
    hide B.Backoff, B.Delay, NextState;
    forall i | 0 <= i < |reclaimed|
      ensures TimeoutOf(jobs0, log[|log0| + i], reclaimed[i])
    {
      assert reclaimed[i] in reclaimed && log[|log0| + i] == TimeoutEvent(jobs0[reclaimed[i]], p);
    }
  }

  /** The record of a timeout of this job, under the token of its lease. */
  ghost predicate TimeoutOf(jobs: map<Id, Job>, e: Event, id: Id) {
    id in jobs && e.Fail? && e.id == id && e.timeout && e.epoch == jobs[id].epoch
  }

  lemma Untouched(jobs0: map<Id, Job>, log0: seq<Event>, jobs: map<Id, Job>, log: seq<Event>, reclaimed: seq<Id>,
      p: SweepParams, id: Id)
    requires Swept(jobs0, log0, jobs, log, reclaimed, p) && id !in reclaimed
    ensures id in jobs <==> id in jobs0
    ensures id in jobs ==> jobs[id] == jobs0[id]
  {
  }

  lemma SweptOneMore(jobs0: map<Id, Job>, log0: seq<Event>, jobs: map<Id, Job>, log: seq<Event>, reclaimed: seq<Id>,
      p: SweepParams, id: Id)
    requires Swept(jobs0, log0, jobs, log, reclaimed, p) && id !in reclaimed && Expired(jobs, p.now, id)
    ensures var e := TimeoutEvent(jobs[id], p);
            Swept(jobs0, log0, jobs[id := JobEffect(jobs[id], e)], log + [e], reclaimed + [id], p)
  {
  }

  /** The state is what the records logged since have made of m. */
  ghost predicate Grown(m: Image, n: nat, m': Image, log: seq<Event>) {
    n <= |log| && m' == FoldFrom(m, log[n..])
  }

  lemma GrownOneMore(m: Image, n: nat, m': Image, log: seq<Event>, e: Event)
    requires Grown(m, n, m', log)
    ensures Grown(m, n, Effect(m', e), log + [e])
  {
    FoldSnoc(m, log[n..], e);
    assert (log + [e])[n..] == log[n..] + [e];
  }

  lemma NothingSwept(m: Image, log: seq<Event>, p: SweepParams)
    ensures Swept(m.jobs, log, m.jobs, log, [], p) && Grown(m, |log|, m, log)
  {
  }

  /** The log took every record from the n-th on. */
  ghost predicate AllTaken(takes: Event -> bool, log: seq<Event>, n: nat) {
    forall i :: n <= i < |log| ==> takes(log[i])
  }

  class Store {
    const backoffBase: B.Int64
    const backoffCap: B.Int64
    const epochBlockSize: nat

    var jobs: map<Id, Job>
    var idem: map<string, Id>
    var leased: set<Id>
    var index: Index
    var lastLSN: nat
    var failed: bool
    var nextEpoch: nat
    var epochReservedUpTo: nat
    /** The write-ahead log as its Append contract shows it: the record with LSN n is log[n - 1]. */
    var log: seq<Event>

    ghost function View(): Image
      reads this
    {
      Image(jobs, idem, leased, epochReservedUpTo)
    }

    ghost predicate Valid()
      reads this, index
    {
      && lastLSN <= |log| && 0 < epochBlockSize
      && IdemExact(jobs, idem) && leased == LeasedIds(jobs)
      && IndexHonest(jobs, index.queues) && NoneStranded(jobs, index.queues)
    }

    /** An empty store over an empty log; zero settings mean the defaults. */
    constructor (backoffBase: B.Int64, backoffCap: B.Int64, epochBlockSize: nat)
      ensures Valid() && View() == EMPTY && log == [] && !failed && nextEpoch == 1 && fresh(index)
      ensures this.backoffBase == (if backoffBase <= 0 then 1_000_000_000 else backoffBase)
      ensures this.backoffCap == (if backoffCap <= 0 then 300_000_000_000 else backoffCap)
      ensures this.epochBlockSize == (if epochBlockSize == 0 then 0x10_0000 else epochBlockSize)
    {
      this.backoffBase := if backoffBase <= 0 then B.DEFAULT_BASE else backoffBase;
      this.backoffCap := if backoffCap <= 0 then B.DEFAULT_CAP else backoffCap;
      this.epochBlockSize := if epochBlockSize == 0 then DEFAULT_EPOCH_BLOCK else epochBlockSize;
      jobs, idem, leased, epochReservedUpTo := map[], map[], {}, 0;
      lastLSN, failed, nextEpoch, log := 0, false, 1, [];
      index := new Index();
    }

    // ------------------------------------------------------- event application ---

    /** Applies an event to memory. Live writes and replay share it. */
    method Apply(e: Event) returns (ok: bool)
      modifies `jobs, `idem, `leased, `epochReservedUpTo
      ensures ok == Known(old(View()), e)
      ensures View() == Effect(old(View()), e)
      ensures ok && e.Fail? ==>
        jobs == old(jobs)[e.id := old(jobs)[e.id].(state := e.next, attempt := e.attempt, eligibleAt := e.eligible,
                                                   lastError := e.reason, leasedBy := "", leaseExpiresAt := 0)]
      ensures ok && e.Lease? ==>
        jobs == old(jobs)[e.id := old(jobs)[e.id].(state := Leased, epoch := e.epoch, attempt := e.attempt,
                                                   leasedBy := e.worker, leaseExpiresAt := e.expires)]
      ensures ok && e.Ack? ==>
        jobs == old(jobs)[e.id := old(jobs)[e.id].(state := Done, leasedBy := "", leaseExpiresAt := 0)]
      ensures ok && e.ReplayJob? ==>
        jobs == old(jobs)[e.id := old(jobs)[e.id].(state := Pending, attempt := 0, eligibleAt := e.eligible,
                                                   lastError := "", leasedBy := "", leaseExpiresAt := 0)]
      ensures ok && e.Submit? ==> jobs == old(jobs)[e.job.spec.id := e.job]
    {
      match e {
        case Submit(j) =>
          jobs := jobs[j.spec.id := j];
          if j.spec.key != "" {
            idem := idem[KeyOf(j.spec) := j.spec.id];
          }
        case Lease(id, epoch, worker, expires, attempt) =>
          if id !in jobs {
            return false;
          }
          jobs := jobs[id := jobs[id].(state := Leased, epoch := epoch, leasedBy := worker, leaseExpiresAt := expires,
            attempt := attempt)];
          leased := leased + {id};
        case Ack(id, _) =>
          if id !in jobs {
            return false;
          }
          jobs := jobs[id := jobs[id].(state := Done, leasedBy := "", leaseExpiresAt := ZERO_TIME)];
          leased := leased - {id};
        case Fail(id, _, attempt, reason, next, eligible, _) =>
          if id !in jobs {
            return false;
          }
          jobs := jobs[id := jobs[id].(state := next, attempt := attempt, eligibleAt := eligible, lastError := reason,
                                       leasedBy := "", leaseExpiresAt := ZERO_TIME)];
          leased := leased - {id};
        case ReplayJob(id, eligible) =>
          if id !in jobs {
            return false;
          }
          jobs := jobs[id := jobs[id].(state := Pending, attempt := 0, eligibleAt := eligible, lastError := "",
                                       leasedBy := "", leaseExpiresAt := ZERO_TIME)];
          leased := leased - {id};
        case EpochReserve(upTo) =>
          epochReservedUpTo := upTo;
      }
      ok := true;
    }

    /** Appends an event, if the log takes it, and applies it; not yet durable. A failed store or a refused append
        changes nothing. */
    method Record(e: Event, takes: Event -> bool) returns (ok: bool)
      requires lastLSN <= |log| && Known(View(), e)
      modifies `jobs, `idem, `leased, `epochReservedUpTo, `log, `lastLSN
      ensures ok == (!failed && takes(e))
      ensures ok ==> View() == Effect(old(View()), e) && log == old(log) + [e] && lastLSN == |log|
      ensures !ok ==> View() == old(View()) && log == old(log) && lastLSN == old(lastLSN)
    {
      if failed || !takes(e) {
        return false;
      }
      log := log + [e];
      ok := Apply(e);
      lastLSN := |log|;
    }

    /** The waiting half of an operation. g is the committer when it has answered this call, and flushed is the answer:
        a success means everything appended before the call is durable, and a failed flush poisons the store. */
    method CommitDurable(flushed: bool, ghost g: G.State, ghost ch: G.Ch) returns (ok: bool)
      requires G.Inv(g) && ch in g.joined && ch in g.replied && flushed == g.replied[ch]
      modifies `failed
      ensures ok == flushed && failed == (old(failed) || !flushed)
      ensures ok ==> g.joined[ch] <= G.Durable(g)
    {
      if flushed {
        return true;
      }
      failed := true;
      ok := false;
    }

    // -------------------------------------------------------------- fencing ---

    /** Claims the next block of tokens. Its record is flushed before it is applied: one that was appended but could
        not be flushed stays in the log, and nothing is claimed. */
    method ReserveEpochs(claim: Claim) returns (ok: bool)
      requires lastLSN <= |log| && 0 < epochBlockSize
      modifies `jobs, `idem, `leased, `epochReservedUpTo, `log, `lastLSN
      ensures ok == claim.Flushed? && lastLSN <= |log|
      ensures var e := EpochReserve(nextEpoch + epochBlockSize - 1);
              && View() == (if ok then Effect(old(View()), e) else old(View()))
              && log == (if claim.NotAppended? then old(log) else old(log) + [e])
      ensures lastLSN == if ok then |log| else old(lastLSN)
      ensures ok ==> epochReservedUpTo == nextEpoch + epochBlockSize - 1 && jobs == old(jobs)
    {
      if claim.NotAppended? {
        return false;
      }
      var e := EpochReserve(nextEpoch + epochBlockSize - 1);
      log := log + [e];
      if claim.NotFlushed? {
        return false;
      }
      ok := Apply(e);
      lastLSN := |log|;
    }

    /** The records a token costs: a reservation when the block is used up, and otherwise none. */
    function Reservation(): seq<Event>
      reads this
    {
      if nextEpoch > epochReservedUpTo && 0 < epochBlockSize then [EpochReserve(nextEpoch + epochBlockSize - 1)] else []
    }

    /** What a reservation that fails leaves in the log. */
    function Unclaimed(claim: Claim): seq<Event>
      reads this
    {
      if claim.NotFlushed? then Reservation() else []
    }

    method NextEpoch(claim: Claim) returns (epoch: Option<nat>)
      requires lastLSN <= |log| && 0 < epochBlockSize
      modifies `jobs, `idem, `leased, `epochReservedUpTo, `log, `lastLSN, `nextEpoch
      ensures lastLSN <= |log|
      ensures epoch == if old(nextEpoch) > old(epochReservedUpTo) && !claim.Flushed? then None else Some(old(nextEpoch))
      ensures epoch.None? ==>
        View() == old(View()) && log == old(log) + old(Unclaimed(claim)) && nextEpoch == old(nextEpoch)
      ensures epoch.Some? ==> nextEpoch == old(nextEpoch) + 1 && log == old(log) + old(Reservation())
      ensures epoch.Some? ==> View() == FoldFrom(old(View()), old(Reservation())) && epoch.value <= epochReservedUpTo
      ensures jobs == old(jobs) && idem == old(idem) && leased == old(leased)
    {
      if nextEpoch > epochReservedUpTo {
        var ok := ReserveEpochs(claim);
        if !ok {
          return None;
        }
        FoldOne(old(View()), EpochReserve(nextEpoch + epochBlockSize - 1));
      }
      epoch := Some(nextEpoch);
      nextEpoch := nextEpoch + 1;
    }

    // ---------------------------------------------------------- transitions ---

    /** Enqueues a job, unless the key already names one. */
    method Submit(p: SubmitParams, id: Id, now: Time, takes: Event -> bool) returns (r: SubmitReply)
      requires Valid() && id !in jobs
      modifies this, index
      ensures Valid() && index == old(index) && nextEpoch == old(nextEpoch) && failed == old(failed)
      ensures r == if BlankName(p.queue) then QueueRequired
                   else if old(failed) then SubmitRefused
                   else if p.key != "" && IdemKey(p.queue, p.key) in old(idem)
                     then Duplicate(old(jobs)[old(idem)[IdemKey(p.queue, p.key)]])
                   else if !takes(Event.Submit(NewJob(p, id, now))) then SubmitRefused
                   else Accepted(NewJob(p, id, now))
      ensures r.Accepted? ==>
        && Legit(old(View()), nextEpoch, Event.Submit(r.job))
        && View() == Effect(old(View()), Event.Submit(r.job)) && log == old(log) + [Event.Submit(r.job)]
      ensures !r.Accepted? ==> View() == old(View()) && log == old(log)
      ensures r.Accepted? ==>
        && jobs == old(jobs)[id := r.job] && r.job.spec.id == id
        && r.job.spec.queue == p.queue && r.job.spec.payload == p.payload && r.job.spec.key == p.key
        && r.job.spec.handler == (if p.handler == "" then "shell" else p.handler) && r.job.spec.priority == p.priority
        && r.job.spec.maxRetries == (if p.maxRetries < 0 then 0 else p.maxRetries) && r.job.spec.enqueuedAt == now
        && r.job.eligibleAt == now + p.delay && r.job.state == Pending && r.job.attempt == 0 && r.job.epoch == 0
        && r.job.leasedBy == "" && r.job.leaseExpiresAt == 0 && r.job.lastError == ""
      ensures r.Accepted? ==> idem == if p.key == "" then old(idem) else old(idem)[p.queue + "\0" + p.key := id]
      ensures r.Duplicate? ==> r.job.spec.key != "" && KeyOf(r.job.spec) == IdemKey(p.queue, p.key)
    {
      if BlankName(p.queue) {
        return QueueRequired;
      }
      if failed {
        return SubmitRefused;
      }
      if p.key != "" {
        if IdemKey(p.queue, p.key) in idem {
          return Duplicate(jobs[idem[IdemKey(p.queue, p.key)]]);
        }
      }
      var j := NewJob(p, id, now);
      EventFits(View(), nextEpoch, Event.Submit(j));
      var ok := Record(Event.Submit(j), takes);
      if !ok {
        return SubmitRefused;
      }
      index.Push(j, now);
      PushRestores(old(jobs), old(index.queues), index.queues, j, now);
      r := Accepted(j);
    }

    /** Pops stale entries until one names a job that can run now. That job is left unfiled for the caller to lease or
        to file again. Each turn takes an entry out of the ready heap for good, so the loop ends whatever the clock
        did. */
    method NextCandidate(queue: string, now: Time) returns (cand: Option<Id>)
      requires Valid()
      modifies index
      ensures IndexHonest(jobs, index.queues)
      ensures cand.None? ==>
        NoneStranded(jobs, index.queues) && forall id :: id in jobs ==> !Candidate(jobs[id], queue, now)
      ensures cand.Some? ==> IsBest(jobs, queue, now, cand.value) && OthersFiled(jobs, index.queues, cand.value)
    {
      ghost var qs0 := index.queues;
      index.Promote(queue, now);
      PromoteFits(jobs, qs0, index.queues, queue, now);
      while true
        invariant IndexHonest(jobs, index.queues) && NoneStranded(jobs, index.queues)
        invariant ReadyComplete(jobs, index.queues, queue, now)
        decreases |Ready(index.queues, queue)|
      {
        hide Has, IsBest, IndexHonest, NoneStranded, OthersFiled, ReadyComplete, IdemExact;
        ghost var qs := index.queues;
        var top := index.Pop(queue);
        if top.None? {
          NoneReady(qs, queue, now);
          return None;
        }
        var e := top.value;
        StoreOwnIds();
        PopFits(jobs, qs, index.queues, queue, e, now);
        if e.id !in jobs || !Leasable(jobs[e.id].state) {
          continue;                              // stale: its job is not waiting
        }
        if e.eligibleAt != jobs[e.id].eligibleAt {
          continue;                              // stale: its job is filed under another time
        }
        PoppedIsCurrent(qs, queue, e);
        if jobs[e.id].eligibleAt > now {
          ghost var qs1 := index.queues;
          index.Push(jobs[e.id], now);           // not yet due: back to the delayed heap
          RefileFits(jobs, qs1, index.queues, queue, e, now);
          RefiledReady(jobs, qs, qs1, index.queues, queue, e, now);
          continue;
        }
        TopIsBest(jobs, qs, queue, e, now);
        return Some(e.id);
      }
    }

    lemma StoreOwnIds()
      requires IdemExact(jobs, idem)
      ensures OwnIds(jobs)
    {
    }

    lemma NoneReady(qs: Queues, queue: string, now: Time)
      requires ReadyComplete(jobs, qs, queue, now) && Ready(qs, queue) == multiset{}
      ensures forall id :: id in jobs ==> !Candidate(jobs[id], queue, now)
    {
    }

    lemma PoppedIsCurrent(qs: Queues, queue: string, e: Entry)
      requires IndexHonest(jobs, qs) && OwnIds(jobs) && e in Ready(qs, queue)
      requires e.id in jobs && Leasable(jobs[e.id].state) && e.eligibleAt == jobs[e.id].eligibleAt
      ensures Current(jobs, e) && jobs[e.id].spec.queue == queue
    {
      assert Has(qs, queue, e);
    }

    /** Hands the best eligible job of a queue to a worker under a new token, or reports that there is none. Whatever
        fails on the way, no job loses its place. */
    method Lease(queue: string, worker: string, now: Time, dur: int, claim: Claim, takes: Event -> bool)
      returns (r: LeaseReply)
      requires Valid()
      modifies this, index
      ensures Valid() && index == old(index) && failed == old(failed)
      ensures r.Nothing? ==>
        && (forall id :: id in jobs ==> !Candidate(jobs[id], queue, now))
        && View() == old(View()) && log == old(log) && nextEpoch == old(nextEpoch)
      ensures r.Nothing? ==> forall id :: id in jobs && (jobs[id].state == Pending || jobs[id].state == RetryWait) ==>
                               jobs[id].spec.queue != queue || now < jobs[id].eligibleAt
      ensures r.Granted? ==>
        var id := r.job.spec.id;
        id in old(jobs) &&
        var j := old(jobs)[id];
        && (j.state == Pending || j.state == RetryWait) && j.spec.queue == queue && j.eligibleAt <= now
        && (forall x :: x in old(jobs) && x != id && (old(jobs)[x].state == Pending || old(jobs)[x].state == RetryWait)
                        && old(jobs)[x].spec.queue == queue && old(jobs)[x].eligibleAt <= now ==>
              || old(jobs)[x].spec.priority < j.spec.priority
              || (old(jobs)[x].spec.priority == j.spec.priority && j.spec.enqueuedAt < old(jobs)[x].spec.enqueuedAt)
              || (&& old(jobs)[x].spec.priority == j.spec.priority
                  && j.spec.enqueuedAt == old(jobs)[x].spec.enqueuedAt && id < x))
        && r.job == j.(state := Leased, epoch := old(nextEpoch), attempt := j.attempt + 1, leasedBy := worker,
                       leaseExpiresAt := now + dur)
        && jobs == old(jobs)[id := r.job]
      ensures r.LeaseRefused? ==>
        && jobs == old(jobs)
        && (exists id :: IsBest(jobs, queue, now, id) && (
              || failed || (old(nextEpoch) > old(epochReservedUpTo) && !claim.Flushed?)
              || !takes(Event.Lease(id, old(nextEpoch), worker, now + dur, jobs[id].attempt + 1))))
        && if old(nextEpoch) > old(epochReservedUpTo) && !claim.Flushed?
           then View() == old(View()) && log == old(log) + old(Unclaimed(claim)) && nextEpoch == old(nextEpoch)
           else (&& View() == FoldFrom(old(View()), old(Reservation()))
                 && log == old(log) + old(Reservation()) && nextEpoch == old(nextEpoch) + 1)
      ensures r.Granted? ==>
        var id := r.job.spec.id;
        && (old(nextEpoch) > old(epochReservedUpTo) ==> claim.Flushed?)
        && IsBest(old(jobs), queue, now, id)
        && var m := FoldFrom(old(View()), old(Reservation()));
           var e := Event.Lease(id, old(nextEpoch), worker, now + dur, old(jobs)[id].attempt + 1);
           && Legit(m, old(nextEpoch), e) && View() == Effect(m, e) && takes(e)
           && log == old(log) + old(Reservation()) + [e]
           && nextEpoch == old(nextEpoch) + 1 && r.job == jobs[id]
    {
      hide IndexHonest, NoneStranded, OthersFiled, IsBest, Candidate, ReadyBefore, LeasedIds, IdemExact, FoldFrom,
        Effect, Legit;
      var cand := NextCandidate(queue, now);
      if cand.None? {
        NobodyMeans(jobs, queue, now);
        return Nothing;
      }
      var id := cand.value;
      StoreOwnIds();
      BestMeans(jobs, queue, now, id);
      var epoch := NextEpoch(claim);
      if epoch.None? {
        Refile(id, queue, now);
        return LeaseRefused;
      }
      ghost var m := View();
      var ok := RecordLease(id, queue, epoch.value, worker, now, dur, takes);
      if !ok {
        return LeaseRefused;
      }
      EffectWrites(m, Event.Lease(id, epoch.value, worker, now + dur, old(jobs)[id].attempt + 1));
      LeaseKnows(m, epoch.value, Event.Lease(id, epoch.value, worker, now + dur, old(jobs)[id].attempt + 1));
      r := Granted(jobs[id]);
    }

    /** Logs the lease of a job taken from the index, or files the job again. */
    method RecordLease(id: Id, queue: string, epoch: nat, worker: string, now: Time, dur: int, takes: Event -> bool)
      returns (ok: bool)
      requires lastLSN <= |log| && 0 < epochBlockSize && IdemExact(jobs, idem) && leased == LeasedIds(jobs)
      requires IndexHonest(jobs, index.queues) && OthersFiled(jobs, index.queues, id) && IsBest(jobs, queue, now, id)
      requires epoch <= epochReservedUpTo
      modifies `jobs, `idem, `leased, `epochReservedUpTo, `log, `lastLSN, index
      ensures Valid() && index == old(index)
      ensures ok == (!failed && takes(Event.Lease(id, epoch, worker, now + dur, old(jobs)[id].attempt + 1)))
      ensures ok ==>
        var e := Event.Lease(id, epoch, worker, now + dur, old(jobs)[id].attempt + 1);
        Legit(old(View()), epoch, e) && View() == Effect(old(View()), e) && log == old(log) + [e]
      ensures !ok ==> View() == old(View()) && log == old(log)
    {
      hide IndexHonest, NoneStranded, OthersFiled, IdemExact, LeasedIds;
      var e := Event.Lease(id, epoch, worker, now + dur, jobs[id].attempt + 1);
      EventFits(View(), epoch, e);
      ok := Record(e, takes);
      if !ok {
        Refile(id, queue, now);
        return;
      }
      LeasedNeedsNoFiling(old(jobs), index.queues, id, jobs[id]);
    }

    /** Files a popped job again. */
    method Refile(id: Id, queue: string, now: Time)
      requires IdemExact(jobs, idem) && IndexHonest(jobs, index.queues) && IsBest(jobs, queue, now, id)
      requires OthersFiled(jobs, index.queues, id)
      modifies index
      ensures IndexHonest(jobs, index.queues) && NoneStranded(jobs, index.queues)
    {
      ghost var qs := index.queues;
      index.Push(jobs[id], now);
      StoreOwnIds();
      RefileFits(jobs, qs, index.queues, queue, EntryOf(jobs[id]), now);
    }

    /** Marks a leased job complete, for the holder of its current token only. */
    method Ack(id: Id, epoch: nat, takes: Event -> bool) returns (r: AckReply)
      requires Valid()
      modifies this, index
      ensures Valid() && index == old(index) && nextEpoch == old(nextEpoch) && failed == old(failed)
      ensures r == if id !in old(jobs) then NotFound
                   else if !HoldsLease(old(jobs)[id], epoch) then Fenced
                   else if failed || !takes(Event.Ack(id, epoch)) then NotLogged
                   else Acked
      ensures r.Acked? ==>
        && Legit(old(View()), nextEpoch, Event.Ack(id, epoch))
        && View() == Effect(old(View()), Event.Ack(id, epoch)) && log == old(log) + [Event.Ack(id, epoch)]
      ensures r.Acked? ==>
        && id in old(jobs) && old(jobs)[id].state == Leased && old(jobs)[id].epoch == epoch
        && jobs == old(jobs)[id := old(jobs)[id].(state := Done, leasedBy := "", leaseExpiresAt := 0)]
      ensures r.Fenced? ==> id in old(jobs) && (old(jobs)[id].state != Leased || old(jobs)[id].epoch != epoch)
      ensures !r.Acked? ==> View() == old(View()) && log == old(log)
    {
      if id !in jobs {
        return NotFound;
      }
      if !HoldsLease(jobs[id], epoch) {
        return Fenced;
      }
      var e := Event.Ack(id, epoch);
      EventFits(View(), nextEpoch, e);
      NoPushNeeded(jobs, index.queues, id, JobEffect(jobs[id], e));
      var ok := Record(e, takes);
      r := if ok then Acked else NotLogged;
    }

    /** The one path for a failed delivery, reported or timed out: schedules a retry or dead-letters. */
    method FailJob(id: Id, reason: string, timeout: bool, now: Time, draw: nat, takes: Event -> bool)
      returns (ok: bool, dead: bool)
      requires Valid() && id in jobs && jobs[id].state == Leased
      modifies this, index
      ensures Valid() && index == old(index) && nextEpoch == old(nextEpoch) && failed == old(failed)
      ensures dead == (ok && NextState(old(jobs)[id]) == DeadLetter)
      ensures var e := FailEvent(old(jobs)[id], reason, timeout, now,
        B.Backoff(old(jobs)[id].attempt, backoffBase, backoffCap, draw));
              ok == (!failed && takes(e)) &&
              if ok then Legit(old(View()), nextEpoch, e) && View() == Effect(old(View()), e) && log == old(log) + [e]
              else View() == old(View()) && log == old(log)
      ensures ok ==>
        var j := old(jobs)[id];
        var d := B.Delay(j.attempt, backoffBase, backoffCap);
        if j.attempt <= j.spec.maxRetries
        then (&& jobs == old(jobs)[id := j.(state := RetryWait, eligibleAt := jobs[id].eligibleAt, lastError := reason,
                                            leasedBy := "", leaseExpiresAt := 0)]
              && now + d / 2 <= jobs[id].eligibleAt <= now + d && !dead)
        else (&& jobs == old(jobs)[id := j.(state := DeadLetter, eligibleAt := now, lastError := reason, leasedBy := "",
                                            leaseExpiresAt := 0)]
              && dead)
    {
      hide IdemExact, B.Backoff, B.Delay, B.OrDefault, IndexHonest, NoneStranded, LeasedIds, Effect;
      var j := jobs[id];
      var attempt := j.attempt;
      var next := RetryWait;
      var eligible := now + B.Backoff(attempt, backoffBase, backoffCap, draw);
      if attempt > j.spec.maxRetries {
        next := DeadLetter;
        eligible := now;
      }
      var e := Fail(id, j.epoch, attempt, reason, next, eligible, timeout);
      StoreOwnIds();
      assert e == FailEvent(j, reason, timeout, now, B.Backoff(attempt, backoffBase, backoffCap, draw));
      FailIsLegit(View(), nextEpoch, id, reason, timeout, now, B.Backoff(attempt, backoffBase, backoffCap, draw));
      EffectOnJobs(View(), e);
      EventFits(View(), nextEpoch, e);
      hide Legit, FailEvent;
      ok := Record(e, takes);
      dead := false;
      if !ok {
        return;
      }
      if next == RetryWait {
        index.Push(jobs[id], now);
        PushRestores(old(jobs), old(index.queues), index.queues, jobs[id], now);
      } else {
        NoPushNeeded(old(jobs), index.queues, id, jobs[id]);
      }
      dead := next == DeadLetter;
    }

    /** Reports a failed delivery, for the holder of the current token only. */
    method Nack(id: Id, epoch: nat, reason: string, now: Time, draw: nat, takes: Event -> bool) returns (r: NackReply)
      requires Valid()
      modifies this, index
      ensures Valid() && index == old(index) && nextEpoch == old(nextEpoch) && failed == old(failed)
      ensures r == if id !in old(jobs) then NackNotFound
                   else if !HoldsLease(old(jobs)[id], epoch) then NackFenced
                   else if failed || !takes(NackEvent(old(jobs)[id], reason, now,
                     B.Backoff(old(jobs)[id].attempt, backoffBase, backoffCap, draw))) then NackNotLogged
                   else Nacked(NextState(old(jobs)[id]) == DeadLetter)
      ensures r.Nacked? ==>
        var e := NackEvent(old(jobs)[id], reason, now, B.Backoff(old(jobs)[id].attempt, backoffBase, backoffCap, draw));
        Legit(old(View()), nextEpoch, e) && View() == Effect(old(View()), e) && log == old(log) + [e]
      ensures !r.Nacked? ==> View() == old(View()) && log == old(log)
      ensures r.Nacked? ==>
        && id in old(jobs) && old(jobs)[id].state == Leased && old(jobs)[id].epoch == epoch
        && var j := old(jobs)[id];
           var why := if reason == "" then "handler reported failure" else reason;
           var d := B.Delay(j.attempt, backoffBase, backoffCap);
           if j.attempt <= j.spec.maxRetries
           then (&& jobs == old(jobs)[id := j.(state := RetryWait, eligibleAt := jobs[id].eligibleAt, lastError := why,
                                               leasedBy := "", leaseExpiresAt := 0)]
                 && now + d / 2 <= jobs[id].eligibleAt <= now + d && !r.dead)
           else (&& jobs == old(jobs)[id := j.(state := DeadLetter, eligibleAt := now, lastError := why, leasedBy := "",
                                               leaseExpiresAt := 0)]
                 && r.dead)
      ensures r.Nacked? ==> log[|log| - 1].Fail? && !log[|log| - 1].timeout && log[|log| - 1].epoch == epoch
      ensures r.NackFenced? ==> id in old(jobs) && (old(jobs)[id].state != Leased || old(jobs)[id].epoch != epoch)
    {
      if id !in jobs {
        return NackNotFound;
      }
      if !HoldsLease(jobs[id], epoch) {
        return NackFenced;
      }
      var why := if reason == "" then "handler reported failure" else reason;
      var ok, dead := FailJob(id, why, false, now, draw, takes);
      r := if ok then Nacked(dead) else NackNotLogged;
    }

    /** Takes back every lease whose deadline has passed, and no other. */
    method ReclaimExpired(now: Time, draws: Id -> nat, takes: Event -> bool) returns (ok: bool, reclaimed: seq<Id>)
      requires Valid()
      modifies this, index
      ensures Valid() && index == old(index) && nextEpoch == old(nextEpoch) && failed == old(failed)
      ensures Swept(old(jobs), old(log), jobs, log, reclaimed, Sweep(now, draws))
      ensures Grown(old(View()), |old(log)|, View(), log)
      ensures ok ==> forall id :: Expired(old(jobs), now, id) ==> id in reclaimed
      ensures |log| == |old(log)| + |reclaimed|
      ensures forall i :: 0 <= i < |reclaimed| ==> TimeoutOf(old(jobs), log[|old(log)| + i], reclaimed[i])
      ensures AllTaken(takes, log, |old(log)|)
      ensures !ok ==> failed || exists id :: Expired(old(jobs), now, id) && id !in reclaimed
                                             && !takes(TimeoutEvent(old(jobs)[id], Sweep(now, draws)))
      ensures forall id :: id in reclaimed ==>
        && id in old(jobs) && id in jobs && old(jobs)[id].state == Leased && old(jobs)[id].leaseExpiresAt <= now
        && var j := old(jobs)[id];
           var d := B.Delay(j.attempt, backoffBase, backoffCap);
           if j.attempt <= j.spec.maxRetries
           then (&& jobs[id] == j.(state := RetryWait, eligibleAt := jobs[id].eligibleAt, lastError := "lease expired",
                                   leasedBy := "", leaseExpiresAt := 0)
                 && now + d / 2 <= jobs[id].eligibleAt <= now + d)
           else jobs[id] == j.(state := DeadLetter, eligibleAt := now, lastError := "lease expired", leasedBy := "",
                               leaseExpiresAt := 0)
      ensures forall id :: id in old(jobs) && id !in reclaimed ==> id in jobs && jobs[id] == old(jobs)[id]
      ensures ok ==>
        forall id :: id in old(jobs) && old(jobs)[id].state == Leased && old(jobs)[id].leaseExpiresAt <= now ==>
          id in reclaimed
    {
      hide B.Delay, B.OrDefault, TimeoutOf, Swept, Grown, TimeoutEvent, IndexHonest, NoneStranded, IdemExact, AllTaken;
      StoreOwnIds();
      ok, reclaimed := SweepLeased(now, draws, takes);
      ghost var sweep := Sweep(now, draws);
      forall id | id in reclaimed {
        SweptMeans(old(jobs), old(log), jobs, log, reclaimed, sweep, id);
      }
      SweptLog(old(jobs), old(log), jobs, log, reclaimed, sweep);
      forall id | id in old(jobs) && id !in reclaimed
        ensures id in jobs && jobs[id] == old(jobs)[id]
      {
        Untouched(old(jobs), old(log), jobs, log, reclaimed, sweep, id);
      }
    }

    /** The sweep over the leased set. A record the log does not take stops it. */
    method SweepLeased(now: Time, draws: Id -> nat, takes: Event -> bool) returns (ok: bool, reclaimed: seq<Id>)
      requires Valid()
      modifies this, index
      ensures Valid() && index == old(index) && nextEpoch == old(nextEpoch) && failed == old(failed)
      ensures Swept(old(jobs), old(log), jobs, log, reclaimed, Sweep(now, draws))
      ensures Grown(old(View()), |old(log)|, View(), log)
      ensures ok ==> forall id :: Expired(old(jobs), now, id) ==> id in reclaimed
      ensures AllTaken(takes, log, |old(log)|)
      ensures !ok ==> failed || exists id :: Expired(old(jobs), now, id) && id !in reclaimed
                                             && !takes(TimeoutEvent(old(jobs)[id], Sweep(now, draws)))
    {
      hide B.Delay, B.OrDefault, TimeoutOf, Swept, Grown, TimeoutEvent, IndexHonest, NoneStranded, IdemExact, Effect,
        FoldFrom;
      ok, reclaimed := true, [];
      NothingSwept(View(), log, Sweep(now, draws));
      var todo := leased;
      ghost var sweep := Sweep(now, draws);
      while todo != {}
        invariant ok && Valid() && index == old(index) && nextEpoch == old(nextEpoch) && failed == old(failed)
        invariant Swept(old(jobs), old(log), jobs, log, reclaimed, sweep)
        invariant AllTaken(takes, log, |old(log)|)
        invariant Grown(old(View()), |old(log)|, View(), log)
        invariant forall id :: id in todo ==> id in old(leased) && id !in reclaimed
        invariant forall id :: Expired(old(jobs), now, id) ==> id in todo || id in reclaimed
        decreases |todo|
      {
        var id :| id in todo;
        todo := todo - {id};
        Untouched(old(jobs), old(log), jobs, log, reclaimed, sweep, id);
        if id !in jobs || jobs[id].state != Leased {
          assert false;                          // leased is exact, so this branch is dead
        }
        if jobs[id].leaseExpiresAt > now {
          continue;
        }
        var logged := ReclaimOne(id, now, draws(id), takes, old(View()), old(log), reclaimed, sweep);
        if !logged {
          ok := false;
          break;
        }
        reclaimed := reclaimed + [id];
      }
    }

    /** One more expired lease of a sweep that began in state m with log log0. */
    method ReclaimOne(id: Id, now: Time, draw: nat, takes: Event -> bool, ghost m: Image, ghost log0: seq<Event>,
        ghost reclaimed: seq<Id>,
                      ghost p: SweepParams)
      returns (ok: bool)
      requires Valid() && id !in reclaimed && Expired(jobs, p.now, id) && p == Sweep(now, p.draws)
        && draw == p.draws(id)
      requires Swept(m.jobs, log0, jobs, log, reclaimed, p) && Grown(m, |log0|, View(), log)
      modifies this, index
      ensures Valid() && index == old(index) && nextEpoch == old(nextEpoch) && failed == old(failed)
      ensures ok == (!failed && takes(TimeoutEvent(old(jobs)[id], p)))
      ensures ok ==> log == old(log) + [TimeoutEvent(old(jobs)[id], p)]
      ensures if ok then Swept(m.jobs, log0, jobs, log, reclaimed + [id], p) && Grown(m, |log0|, View(), log)
              else View() == old(View()) && log == old(log)
    {
      hide Swept, Grown, IndexHonest, NoneStranded, IdemExact, LeasedIds, Effect, NextState, B.Backoff, B.Delay,
        B.OrDefault;
      ghost var m0 := View();
      StoreOwnIds();
      SweptOneMore(m.jobs, log0, jobs, log, reclaimed, p, id);
      GrownOneMore(m, |log0|, m0, log, TimeoutEvent(jobs[id], p));
      EffectOnJobs(m0, TimeoutEvent(jobs[id], p));
      var dead;
      ok, dead := FailJob(id, "lease expired", true, now, draw, takes);
    }

    ghost function Sweep(now: Time, draws: Id -> nat): SweepParams {
      SweepParams(now, draws, backoffBase, backoffCap)
    }

    /** Extends a lease, for the holder of the current token only. Nothing is logged. */
    method Heartbeat(id: Id, epoch: nat, now: Time, dur: int) returns (r: BeatReply)
      requires Valid()
      modifies this
      ensures Valid() && index == old(index) && nextEpoch == old(nextEpoch) && failed == old(failed) && log == old(log)
      ensures r == if id !in old(jobs) then BeatNotFound
                   else if !HoldsLease(old(jobs)[id], epoch) then BeatFenced
                   else Extended(now + dur)
      ensures r.Extended? ==> id in old(jobs) && old(jobs)[id].state == Leased && old(jobs)[id].epoch == epoch
      ensures View() == if r.Extended? then old(View()).(jobs := old(jobs)[id := old(jobs)[id].(leaseExpiresAt := now
        + dur)])
                        else old(View())
    {
      if id !in jobs {
        return BeatNotFound;
      }
      if !HoldsLease(jobs[id], epoch) {
        return BeatFenced;
      }
      var j := jobs[id].(leaseExpiresAt := now + dur);
      NoPushNeeded(jobs, index.queues, id, j);
      jobs := jobs[id := j];
      r := Extended(now + dur);
    }

    /** Returns a dead-lettered job to its queue with a fresh budget. */
    method ReplayDead(id: Id, now: Time, takes: Event -> bool) returns (r: ReplayReply)
      requires Valid()
      modifies this, index
      ensures Valid() && index == old(index) && nextEpoch == old(nextEpoch) && failed == old(failed)
      ensures r == if id !in old(jobs) then ReplayNotFound
                   else if old(jobs)[id].state != DeadLetter then NotDeadLettered
                   else if failed || !takes(ReplayJob(id, now)) then ReplayNotLogged
                   else Replayed
      ensures r.Replayed? ==>
        && Legit(old(View()), nextEpoch, ReplayJob(id, now))
        && View() == Effect(old(View()), ReplayJob(id, now)) && log == old(log) + [ReplayJob(id, now)]
      ensures !r.Replayed? ==> View() == old(View()) && log == old(log)
      ensures r.Replayed? ==>
        && id in old(jobs) && old(jobs)[id].state == DeadLetter
        && jobs == old(jobs)[id := old(jobs)[id].(state := Pending, attempt := 0, eligibleAt := now, lastError := "",
                                                  leasedBy := "", leaseExpiresAt := 0)]
    {
      if id !in jobs {
        return ReplayNotFound;
      }
      if jobs[id].state != DeadLetter {
        return NotDeadLettered;
      }
      var e := ReplayJob(id, now);
      EventFits(View(), nextEpoch, e);
      var ok := Record(e, takes);
      if !ok {
        return ReplayNotLogged;
      }
      index.Push(jobs[id], now);
      PushRestores(old(jobs), old(index.queues), index.queues, jobs[id], now);
      r := Replayed;
    }

    // ------------------------------------------------------------- recovery ---

    /** Loads the jobs of a snapshot file, in whatever order the file lists them. */
    method LoadSnapshot(listed: seq<Job>, ceiling: nat)
      requires View() == EMPTY
      modifies `jobs, `idem, `leased, `epochReservedUpTo
      ensures View() == LoadAll(listed).(ceiling := ceiling)
    {
      for i := 0 to |listed|
        invariant View() == LoadAll(listed[..i])
      {
        var j := listed[i];
        assert listed[..i + 1][..i] == listed[..i];
        jobs := jobs[j.spec.id := j];
        if j.spec.key != "" {
          idem := idem[KeyOf(j.spec) := j.spec.id];
        }
        if j.state == Leased {
          leased := leased + {j.spec.id};
        }
      }
      assert listed[..|listed|] == listed;
      epochReservedUpTo := ceiling;
    }

    /** Replays records in order, stopping at the first that cannot be applied. */
    method ReplayRecords(records: seq<Event>) returns (ok: bool)
      modifies `jobs, `idem, `leased, `epochReservedUpTo
      ensures ok <==> Replayable(old(View()), records)
      ensures ok ==> View() == FoldFrom(old(View()), records)
    {
      hide Effect, Known;
      assert records[..0] == [];
      for i := 0 to |records|
        invariant View() == FoldFrom(old(View()), records[..i]) && Replayable(old(View()), records[..i])
      {
        assert records[..i + 1][..i] == records[..i];
        var applied := Apply(records[i]);
        if !applied {
          StuckStays(old(View()), records, i + 1);
          return false;
        }
      }
      assert records[..|records|] == records;
      ok := true;
    }

    /** Releases every lease the previous process left behind. */
    method RecoverLeased(now: Time)
      modifies `jobs, `leased
      ensures View() == Release(old(View()), now)
      ensures jobs.Keys == old(jobs).Keys && leased == {} && idem == old(idem)
      ensures forall id :: id in old(jobs) ==>
        jobs[id] == if old(jobs)[id].state != Leased then old(jobs)[id]
                    else old(jobs)[id].(state := RetryWait, eligibleAt := now, leasedBy := "", leaseExpiresAt := 0,
                                        lastError := "broker restarted while job was leased")
    {
      var todo := jobs.Keys;
      while todo != {}
        invariant todo <= jobs.Keys && jobs.Keys == old(jobs).Keys
        invariant forall id :: id in jobs ==>
          jobs[id] == if id in todo then old(jobs)[id] else Released(old(jobs)[id], now)
        decreases |todo|
      {
        var id :| id in todo;
        todo := todo - {id};
        if jobs[id].state != Leased {
          continue;
        }
        jobs := jobs[id := jobs[id].(state := RetryWait, leasedBy := "", leaseExpiresAt := ZERO_TIME, eligibleAt := now,
                                     lastError := RESTARTED)];
      }
      leased := {};
    }

    /** Builds the index from the job map alone. */
    method RebuildIndex(now: Time)
      requires OwnIds(jobs)
      modifies `index
      ensures fresh(index) && IndexHonest(jobs, index.queues) && NoneStranded(jobs, index.queues)
    {
      hide Has, Pushed, IndexHonest, Filed, IdemExact, LeasedIds;
      index := new Index();
      NothingFiled(jobs);
      var todo := jobs.Keys;
      while todo != {}
        invariant todo <= jobs.Keys && fresh(index) && unchanged(`jobs)
        invariant IndexHonest(jobs, index.queues)
        invariant forall id :: id in jobs && id !in todo ==> Filed(jobs, index.queues, id)
        decreases |todo|
      {
        var id :| id in todo;
        todo := todo - {id};
        ghost var qs := index.queues;
        if Leasable(jobs[id].state) {
          index.Push(jobs[id], now);
        }
        FiledOneMore(jobs, qs, index.queues, id, now);
      }
    }

    /** Recovery of an empty store from a snapshot file and the records after it; `before` is the part of the log the
        snapshot covers. Opening fails exactly when a record cannot be applied. */
    method Recover(listed: seq<Job>, ceiling: nat, before: seq<Event>, records: seq<Event>, now: Time)
      returns (ok: bool)
      requires View() == EMPTY && 0 < epochBlockSize
      modifies this
      ensures ok <==> Replayable(Loaded(listed, ceiling), records)
      ensures ok ==> View() == Release(FoldFrom(Loaded(listed, ceiling), records), now)
      ensures ok ==> log == before + records && nextEpoch == epochReservedUpTo + 1
      ensures ok ==> fresh(index) && IndexHonest(jobs, index.queues) && NoneStranded(jobs, index.queues)
      ensures ok && IdemExact(LoadAll(listed).jobs, LoadAll(listed).idem) ==>
        (Additive(Loaded(listed, ceiling), records) ==> Valid())
      ensures ok ==>
        var m := FoldFrom(Loaded(listed, ceiling), records);
        && jobs.Keys == m.jobs.Keys && leased == {} && idem == m.idem && nextEpoch == m.ceiling + 1
        && forall id :: id in m.jobs ==>
             jobs[id] == if m.jobs[id].state != Leased then m.jobs[id]
                         else m.jobs[id].(state := RetryWait, eligibleAt := now, leasedBy := "", leaseExpiresAt := 0,
                                          lastError := "broker restarted while job was leased")
    {
      hide Effect, Known, FoldFrom, IdemExact, IndexHonest, NoneStranded;
      LoadSnapshot(listed, ceiling);
      ok := ReplayRecords(records);
      if !ok {
        return;
      }
      ghost var replayed := View();
      FoldOwnIds(listed, ceiling, records);
      RecoverLeased(now);
      RebuildIndex(now);
      log := before + records;
      lastLSN := |log|;
      nextEpoch := epochReservedUpTo + 1;
      if IdemExact(LoadAll(listed).jobs, LoadAll(listed).idem) && Additive(Loaded(listed, ceiling), records) {
        AdditiveKeepsIdem(Loaded(listed, ceiling), records);
        ReleaseKeepsIdem(replayed, now);
      }
    }
  }

  ghost function Loaded(listed: seq<Job>, ceiling: nat): Image {
    LoadAll(listed).(ceiling := ceiling)
  }

  lemma ReleaseKeepsIdem(m: Image, now: Time)
    requires IdemExact(m.jobs, m.idem)
    ensures IdemExact(Release(m, now).jobs, m.idem) && LeasedIds(Release(m, now).jobs) == {}
  {
  }

  /** What loading does with one job of the file, and with all of them. */
  function LoadOne(m: Image, j: Job): Image {
    Image(m.jobs[j.spec.id := j], if j.spec.key != "" then m.idem[KeyOf(j.spec) := j.spec.id] else m.idem,
          if j.state == Leased then m.leased + {j.spec.id} else m.leased, m.ceiling)
  }

  function LoadAll(listed: seq<Job>): Image {
    if listed == [] then EMPTY else LoadOne(LoadAll(listed[..|listed| - 1]), listed[|listed| - 1])
  }

  /** Every record finds the job it names. */
  ghost predicate Replayable(m: Image, es: seq<Event>) {
    es == [] || (Replayable(m, es[..|es| - 1]) && Known(FoldFrom(m, es[..|es| - 1]), es[|es| - 1]))
  }

  ghost predicate Additive(m: Image, es: seq<Event>) {
    es == [] || (Additive(m, es[..|es| - 1]) && Applicable(FoldFrom(m, es[..|es| - 1]), es[|es| - 1]))
  }

  lemma {:induction false} StuckStays(m: Image, es: seq<Event>, k: nat)
    requires k <= |es| && !Replayable(m, es[..k])
    ensures !Replayable(m, es)
  {
    if k == |es| {
      assert es[..k] == es;
    } else {
      assert es[..|es| - 1][..k] == es[..k];
      StuckStays(m, es[..|es| - 1], k);
    }
  }

  lemma {:induction false} AdditiveKeepsIdem(m: Image, es: seq<Event>)
    requires IdemExact(m.jobs, m.idem) && Additive(m, es)
    ensures IdemExact(FoldFrom(m, es).jobs, FoldFrom(m, es).idem)
  {
    hide Effect, Applicable, IdemExact;
    if es != [] {
      AdditiveKeepsIdem(m, es[..|es| - 1]);
      EffectKeepsIdem(FoldFrom(m, es[..|es| - 1]), es[|es| - 1]);
    }
  }

  lemma {:induction false} FoldOwnIds(listed: seq<Job>, ceiling: nat, es: seq<Event>)
    ensures OwnIds(FoldFrom(Loaded(listed, ceiling), es).jobs)
  {
    if es != [] {
      FoldOwnIds(listed, ceiling, es[..|es| - 1]);
    } else {
      LoadedOwnIds(listed);
    }
  }

  lemma {:induction false} LoadedOwnIds(listed: seq<Job>)
    ensures OwnIds(LoadAll(listed).jobs)
  {
    if listed != [] {
      LoadedOwnIds(listed[..|listed| - 1]);
    }
  }

  /** A file lists a snapshot's jobs when it names each of them exactly once. */
  ghost predicate Lists(listed: seq<Job>, jobs: map<Id, Job>) {
    && (forall i, j :: 0 <= i < j < |listed| ==> listed[i].spec.id != listed[j].spec.id)
    && (forall i :: 0 <= i < |listed| ==> listed[i].spec.id in jobs && jobs[listed[i].spec.id] == listed[i])
    && (forall id :: id in jobs ==> exists i :: 0 <= i < |listed| && listed[i].spec.id == id)
  }

  /** Whatever order the file lists the jobs in, loading gives the jobs and the one idempotency map they determine. */
  lemma LoadingIsOrderBlind(listed: seq<Job>, snap: Snapshot, idem: map<string, Id>)
    requires Lists(listed, snap.jobs) && IdemExact(snap.jobs, idem)
    ensures Loaded(listed, snap.ceiling) == Load(snap)
    ensures IdemExact(LoadAll(listed).jobs, LoadAll(listed).idem)
  {
    LoadedSoFar(listed, snap.jobs, idem, |listed|);
    assert listed[..|listed|] == listed;
    var m := LoadAll(listed);
    assert m.jobs == snap.jobs;
    assert m.leased == LeasedIds(snap.jobs);
    assert IdemExact(m.jobs, m.idem);
    LoadedIdemIsExact(snap, m);
    LoadedCeiling(listed);
  }

  lemma {:induction false} LoadedCeiling(listed: seq<Job>)
    ensures LoadAll(listed).ceiling == 0
  {
    if listed != [] {
      LoadedCeiling(listed[..|listed| - 1]);
    }
  }

  /** What loading the first k listed jobs has come to. */
  ghost predicate PartlyLoaded(listed: seq<Job>, jobs: map<Id, Job>, m: Image, k: nat) {
    && k <= |listed|
    && (forall id :: id in m.jobs <==> exists i :: 0 <= i < k && listed[i].spec.id == id)
    && (forall id :: id in m.jobs ==> id in jobs && m.jobs[id] == jobs[id])
  }

  lemma LoadStep(listed: seq<Job>, jobs: map<Id, Job>, m: Image, k: nat)
    requires Lists(listed, jobs) && PartlyLoaded(listed, jobs, m, k) && k < |listed|
    ensures listed[k].spec.id !in m.jobs && PartlyLoaded(listed, jobs, LoadOne(m, listed[k]), k + 1)
  {
    var m' := LoadOne(m, listed[k]);
    forall id
      ensures id in m'.jobs <==> exists i :: 0 <= i < k + 1 && listed[i].spec.id == id
    {
      if id == listed[k].spec.id {
        assert listed[k].spec.id == id;
      } else {
        assert id in m'.jobs <==> id in m.jobs;
      }
    }
  }

  /** A job not yet loaded brings a key not yet taken. */
  lemma FreshKey(jobs: map<Id, Job>, idem: map<string, Id>, m: Image, j: Job)
    requires IdemExact(jobs, idem) && IdemExact(m.jobs, m.idem)
    requires forall id :: id in m.jobs ==> id in jobs && m.jobs[id] == jobs[id]
    requires j.spec.id in jobs && jobs[j.spec.id] == j && j.spec.id !in m.jobs && j.spec.key != ""
    ensures KeyOf(j.spec) !in m.idem
  {
    assert idem[KeyOf(j.spec)] == j.spec.id;
  }

  lemma LoadKeepsIdem(listed: seq<Job>, jobs: map<Id, Job>, idem: map<string, Id>, m: Image, k: nat)
    requires Lists(listed, jobs) && IdemExact(jobs, idem) && PartlyLoaded(listed, jobs, m, k) && k < |listed|
    requires IdemExact(m.jobs, m.idem) && listed[k].spec.id !in m.jobs
    ensures IdemExact(LoadOne(m, listed[k]).jobs, LoadOne(m, listed[k]).idem)
  {
    hide IdemExact;
    var j := listed[k];
    if j.spec.key != "" {
      FreshKey(jobs, idem, m, j);
    }
    EffectKeepsIdem(m, Submit(j));
  }

  lemma LoadKeepsLeased(m: Image, j: Job)
    requires m.leased == LeasedIds(m.jobs) && j.spec.id !in m.jobs
    ensures LoadOne(m, j).leased == LeasedIds(LoadOne(m, j).jobs)
  {
  }

  lemma NothingLoaded(listed: seq<Job>, jobs: map<Id, Job>)
    ensures PartlyLoaded(listed, jobs, EMPTY, 0) && IdemExact(EMPTY.jobs, EMPTY.idem)
      && EMPTY.leased == LeasedIds(EMPTY.jobs)
  {
  }

  lemma {:induction false} LoadedSoFar(listed: seq<Job>, jobs: map<Id, Job>, idem: map<string, Id>, k: nat)
    requires Lists(listed, jobs) && IdemExact(jobs, idem) && k <= |listed|
    ensures var m := LoadAll(listed[..k]);
            PartlyLoaded(listed, jobs, m, k) && IdemExact(m.jobs, m.idem) && m.leased == LeasedIds(m.jobs)
  {
    hide LoadOne, IdemExact, Lists, PartlyLoaded, LeasedIds;
    if k > 0 {
      LoadedSoFar(listed, jobs, idem, k - 1);
      assert listed[..k][..k - 1] == listed[..k - 1];
      var m := LoadAll(listed[..k - 1]);
      LoadStep(listed, jobs, m, k - 1);
      LoadKeepsIdem(listed, jobs, idem, m, k - 1);
      LoadKeepsLeased(m, listed[k - 1]);
    } else {
      assert listed[..k] == [];
      NothingLoaded(listed, jobs);
    }
  }

  lemma FoldOne(m: Image, e: Event)
    ensures FoldFrom(m, [e]) == Effect(m, e)
  {
    FoldSnoc(m, [], e);
    assert [] + [e] == [e];
  }
}
