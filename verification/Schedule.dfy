/** The schedule index: per-queue heaps of copied keys, which may go stale.

    A heap is modelled by its multiset of entries; taking its top takes some entry that nothing in it precedes. */
module Schedule {
  import opened Options
  import opened Jobs

  datatype Entry = Entry(id: Id, priority: nat, enqueuedAt: Time, eligibleAt: Time)

  datatype Queue = Queue(ready: multiset<Entry>, delayed: multiset<Entry>)

  function EntryOf(j: Job): Entry {
    Entry(j.spec.id, j.spec.priority, j.spec.enqueuedAt, j.eligibleAt)
  }

  /** The order of the ready heap: by falling priority, then rising age, then ID. */
  predicate ReadyBefore(a: Entry, b: Entry) {
    if a.priority != b.priority then a.priority > b.priority
    else if a.enqueuedAt != b.enqueuedAt then a.enqueuedAt < b.enqueuedAt
    else a.id < b.id
  }

  /** The order of the delayed heap: by the time a job becomes eligible, then ID. */
  predicate DelayedBefore(a: Entry, b: Entry) {
    if a.eligibleAt != b.eligibleAt then a.eligibleAt < b.eligibleAt else a.id < b.id
  }

  ghost predicate IsReadyTop(h: multiset<Entry>, e: Entry) {
    e in h && forall x :: x in h ==> !ReadyBefore(x, e)
  }

  ghost predicate IsDelayedTop(h: multiset<Entry>, e: Entry) {
    e in h && forall x :: x in h ==> !DelayedBefore(x, e)
  }

  lemma {:induction false} ReadyTopExists(h: multiset<Entry>) returns (top: Entry)
    requires h != multiset{}
    ensures IsReadyTop(h, top)
    decreases |h|
  {
    var e :| e in h;
    var rest := h - multiset{e};
    top := e;
    if rest != multiset{} {
      var t := ReadyTopExists(rest);
      top := if ReadyBefore(t, e) then t else e;
    }
    forall x | x in h
      ensures !ReadyBefore(x, top)
    {
      assert x == e || x in rest;
    }
  }

  lemma {:induction false} DelayedTopExists(h: multiset<Entry>) returns (top: Entry)
    requires h != multiset{}
    ensures IsDelayedTop(h, top)
    decreases |h|
  {
    var e :| e in h;
    var rest := h - multiset{e};
    top := e;
    if rest != multiset{} {
      var t := DelayedTopExists(rest);
      top := if DelayedBefore(t, e) then t else e;
    }
    forall x | x in h
      ensures !DelayedBefore(x, top)
    {
      assert x == e || x in rest;
    }
  }

  /** Removes the top of a ready heap. */
  method PopReady(h: multiset<Entry>) returns (e: Entry, rest: multiset<Entry>)
    requires h != multiset{}
    ensures IsReadyTop(h, e) && rest == h - multiset{e}
    ensures e in h && forall x :: x in h ==>
      || x.priority < e.priority
      || (x.priority == e.priority && e.enqueuedAt < x.enqueuedAt)
      || (x.priority == e.priority && e.enqueuedAt == x.enqueuedAt && e.id <= x.id)
  {
    ghost var top := ReadyTopExists(h);
    assert top in h && forall x :: x in h ==> !ReadyBefore(x, top);
    e :| e in h && forall x :: x in h ==> !ReadyBefore(x, e);
    rest := h - multiset{e};
  }

  method PeekDelayed(h: multiset<Entry>) returns (e: Entry)
    requires h != multiset{}
    ensures IsDelayedTop(h, e)
  {
    ghost var top := DelayedTopExists(h);
    assert top in h && forall x :: x in h ==> !DelayedBefore(x, top);
    e :| e in h && forall x :: x in h ==> !DelayedBefore(x, e);
  }

  /** The promoting loop: the delayed heap gives up its top until the top is still in the future. */
  method PromoteHeaps(ready: multiset<Entry>, delayed: multiset<Entry>, now: Time)
    returns (ready': multiset<Entry>, delayed': multiset<Entry>)
    ensures ready' + delayed' == ready + delayed && ready <= ready'
    ensures forall e :: e in delayed' ==> e.eligibleAt > now
    ensures forall e :: e in ready' ==> e in ready || e.eligibleAt <= now
  {
    ready', delayed' := ready, delayed;
    while delayed' != multiset{}
      invariant ready' + delayed' == ready + delayed && ready <= ready'
      invariant forall e :: e in ready' ==> e in ready || e.eligibleAt <= now
      decreases |delayed'|
    {
      var e := PeekDelayed(delayed');
      if e.eligibleAt > now {
        break;
      }
      assert delayed' == (delayed' - multiset{e}) + multiset{e};
      delayed' := delayed' - multiset{e};
      ready' := ready' + multiset{e};
    }
  }

  type Queues = map<string, Queue>

  function Ready(qs: Queues, name: string): multiset<Entry> {
    if name in qs then qs[name].ready else multiset{}
  }

  function Delayed(qs: Queues, name: string): multiset<Entry> {
    if name in qs then qs[name].delayed else multiset{}
  }

  /** Whether a queue's heaps hold this entry. */
  ghost predicate Has(qs: Queues, name: string, e: Entry) {
    e in Ready(qs, name) || e in Delayed(qs, name)
  }

  ghost predicate SameElsewhere(qs: Queues, qs': Queues, name: string) {
    forall q :: q != name ==> Ready(qs', q) == Ready(qs, q) && Delayed(qs', q) == Delayed(qs, q)
  }

  ghost predicate Pushed(qs: Queues, qs': Queues, j: Job, now: Time) {
    && SameElsewhere(qs, qs', j.spec.queue)
    && Ready(qs', j.spec.queue)
       == Ready(qs, j.spec.queue) + (if j.eligibleAt > now then multiset{} else multiset{EntryOf(j)})
    && Delayed(qs', j.spec.queue)
       == Delayed(qs, j.spec.queue) + (if j.eligibleAt > now then multiset{EntryOf(j)} else multiset{})
  }

  ghost predicate Promoted(qs: Queues, qs': Queues, name: string, now: Time) {
    && SameElsewhere(qs, qs', name)
    && Ready(qs', name) + Delayed(qs', name) == Ready(qs, name) + Delayed(qs, name)
    && Ready(qs, name) <= Ready(qs', name)
    && (forall e :: e in Delayed(qs', name) ==> e.eligibleAt > now)
    && (forall e :: e in Ready(qs', name) ==> e in Ready(qs, name) || e.eligibleAt <= now)
  }

  ghost predicate Popped(qs: Queues, qs': Queues, name: string, e: Entry) {
    && SameElsewhere(qs, qs', name)
    && Delayed(qs', name) == Delayed(qs, name)
    && IsReadyTop(Ready(qs, name), e) && Ready(qs', name) == Ready(qs, name) - multiset{e}
  }

  /** Adding the entry to one heap of a queue, created empty if need be. */
  lemma FiledIs(was: Queues, qs: Queues, j: Job, now: Time)
    requires j.spec.queue in qs && qs == if j.spec.queue in was then was
      else was[j.spec.queue := Queue(multiset{}, multiset{})]
    ensures var q := qs[j.spec.queue];
            var q' := if j.eligibleAt > now then q.(delayed := q.delayed + multiset{EntryOf(j)})
                      else q.(ready := q.ready + multiset{EntryOf(j)});
            Pushed(was, qs[j.spec.queue := q'], j, now)
  {
  }

  class Index {
    var queues: Queues

    constructor ()
      ensures queues == map[]
    {
      queues := map[];
    }

    /** Files a job by whether its eligibility time has arrived. */
    method Push(j: Job, now: Time)
      modifies this
      ensures Pushed(old(queues), queues, j, now)
    {
      var name := j.spec.queue;
      if name !in queues {
        queues := queues[name := Queue(multiset{}, multiset{})];
      }
      var q := queues[name];
      var e := EntryOf(j);
      FiledIs(old(queues), queues, j, now);
      hide Pushed;
      if e.eligibleAt > now {
        queues := queues[name := q.(delayed := q.delayed + multiset{e})];
        return;
      }
      queues := queues[name := q.(ready := q.ready + multiset{e})];
    }

    /** Moves everything whose delay has elapsed, and nothing else, into the ready heap. */
    method Promote(name: string, now: Time)
      modifies this
      ensures Promoted(old(queues), queues, name, now)
    {
      if name !in queues {
        return;
      }
      var ready, delayed := PromoteHeaps(queues[name].ready, queues[name].delayed, now);
      queues := queues[name := Queue(ready, delayed)];
    }

    /** Takes the next candidate of a queue. It may name a job that has moved on. */
    method Pop(name: string) returns (r: Option<Entry>)
      modifies this
      ensures r.None? ==> Ready(queues, name) == multiset{} && queues == old(queues)
      ensures r.Some? ==> Popped(old(queues), queues, name, r.value)
    {
      if name !in queues || queues[name].ready == multiset{} {
        return None;
      }
      var e, rest := PopReady(queues[name].ready);
      queues := queues[name := queues[name].(ready := rest)];
      r := Some(e);
    }

    /** The earliest time at which a delayed entry of any queue becomes eligible. Zero times aside, which no clock
        produces, there is one exactly when something is delayed, and it is the minimum. */
    method NextDeadline() returns (earliest: Time, ok: bool)
      ensures ok <==> earliest != ZERO_TIME
      ensures ok ==> exists q :: q in queues && SomeAt(queues[q].delayed, earliest)
      ensures (forall q :: q in queues ==> !SomeAt(queues[q].delayed, ZERO_TIME)) ==>
                && (ok <==> exists q :: q in queues && queues[q].delayed != multiset{})
                && (ok ==> forall q :: q in queues ==> NoneBefore(queues[q].delayed, earliest))
    {
      earliest := ZERO_TIME;
      var todo := queues.Keys;
      ghost var zeroFree := forall q :: q in queues ==> !SomeAt(queues[q].delayed, ZERO_TIME);
      while todo != {}
        invariant todo <= queues.Keys
        invariant earliest != ZERO_TIME ==> exists q :: q in queues && SomeAt(queues[q].delayed, earliest)
        invariant zeroFree && earliest != ZERO_TIME ==>
          forall q :: q in queues && q !in todo ==> NoneBefore(queues[q].delayed, earliest)
        invariant zeroFree && earliest == ZERO_TIME ==>
          forall q :: q in queues && q !in todo ==> queues[q].delayed == multiset{}
        decreases |todo|
      {
        var name :| name in todo;
        todo := todo - {name};
        if queues[name].delayed != multiset{} {
          var top := PeekDelayed(queues[name].delayed);
          assert SomeAt(queues[name].delayed, top.eligibleAt);
          if earliest == ZERO_TIME || top.eligibleAt < earliest {
            earliest := top.eligibleAt;
          }
        }
      }
      ok := earliest != ZERO_TIME;
    }
  }

  ghost predicate SomeAt(h: multiset<Entry>, t: Time) {
    exists e :: e in h && e.eligibleAt == t
  }

  ghost predicate NoneBefore(h: multiset<Entry>, t: Time) {
    forall e :: e in h ==> t <= e.eligibleAt
  }
}
