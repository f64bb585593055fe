/** Worker slots: the single dispatch loop checks for room, leases and assigns, taking the lock anew each time, while
    workers connect, disconnect and release. */
module Dispatcher {
  import opened Options
  import opened Jobs
  import S = Store

  type StreamId = nat

  datatype Stream = Stream(queue: string, worker: string, maxInFlight: nat, leaseDur: int, inFlight: nat)

  /** `streams` keeps every stream ever registered, since the loop may still hold one that has gone; `connected` is the
      dispatcher's own map. `checked` is the stream the loop has found room on and is leasing for. */
  datatype Slots = Slots(streams: map<StreamId, Stream>, connected: set<StreamId>, owner: map<Id, StreamId>,
                         nextId: nat, checked: Option<StreamId>)

  datatype Act =
    | Register(queue: string, worker: string, maxInFlight: nat, leaseDur: int)
    | Unregister(st: StreamId)
    | Release(job: Id)
    | Check(st: StreamId) | GiveUp | Assign(job: Id)

  function Init(): Slots {
    Slots(map[], {}, map[], 0, None)
  }

  /** The server clamps maxInFlight to at least one. */
  predicate Enabled(s: Slots, a: Act) {
    match a
    case Register(_, _, maxInFlight, _) => 1 <= maxInFlight
    case Unregister(st) => st in s.streams
    case Release(_) => true
    case Check(st) => s.checked.None? && st in s.streams && s.streams[st].inFlight < s.streams[st].maxInFlight
    case GiveUp => s.checked.Some?
    case Assign(_) => s.checked.Some? && s.checked.value in s.streams
  }

  function Freed(st: Stream): Stream {
    if st.inFlight > 0 then st.(inFlight := st.inFlight - 1) else st
  }

  function Do(s: Slots, a: Act): Slots
    requires Enabled(s, a)
  {
    match a
    case Register(queue, worker, maxInFlight, leaseDur) =>
      var id := s.nextId + 1;
      s.(streams := s.streams[id := Stream(queue, worker, maxInFlight, leaseDur, 0)], connected := s.connected + {id},
        nextId := id)
    case Unregister(st) =>
      s.(connected := s.connected - {st}, owner := map j | j in s.owner && s.owner[j] != st :: s.owner[j])
    case Release(job) =>
      if job !in s.owner then s else
      var st := s.owner[job];
      s.(owner := s.owner - {job},
         streams := if st in s.streams then s.streams[st := Freed(s.streams[st])] else s.streams)
    case Check(st) => s.(checked := Some(st))
    case GiveUp => s.(checked := None)
    case Assign(job) =>
      var st := s.checked.value;
      s.(streams := s.streams[st := s.streams[st].(inFlight := s.streams[st].inFlight + 1)],
         owner := s.owner[job := st], checked := None)
  }

  /** What the five kinds of step do to a stream, in numbers. */
  lemma SlotSteps(s: Slots, a: Act)
    requires Inv(s) && Enabled(s, a)
    ensures a.Register? ==>
      && s.nextId + 1 !in s.streams && Do(s, a).connected == s.connected + {s.nextId + 1} && Do(s, a).owner == s.owner
      && Do(s, a).streams == s.streams[s.nextId + 1 := Stream(a.queue, a.worker, a.maxInFlight, a.leaseDur, 0)]
    ensures a.Unregister? ==>
      && a.st !in Do(s, a).connected && Do(s, a).streams == s.streams && Owned(Do(s, a), a.st) == {}
      && forall other :: other != a.st ==>
           Owned(Do(s, a), other) == Owned(s, other) && (other in Do(s, a).connected <==> other in s.connected)
    ensures a.Release? && a.job in s.owner ==>
      && a.job !in Do(s, a).owner
      && Do(s, a).streams[s.owner[a.job]].inFlight == s.streams[s.owner[a.job]].inFlight - 1
    ensures a.Release? && a.job !in s.owner ==> Do(s, a) == s
    ensures a.Assign? ==>
      && a.job in Do(s, a).owner && Do(s, a).owner[a.job] == s.checked.value
      && Do(s, a).streams[s.checked.value].inFlight == s.streams[s.checked.value].inFlight + 1
  {
    if a.Register? {
      IdIsNew(s);
    }
    if a.Release? && a.job in s.owner {
      assert StreamOk(s, s.owner[a.job]) && a.job in Owned(s, s.owner[a.job]);
      SubsetIsSmaller({a.job}, Owned(s, s.owner[a.job]));
    }
  }

  function Owned(s: Slots, st: StreamId): set<Id> {
    set j | j in s.owner && s.owner[j] == st
  }

  ghost predicate StreamOk(s: Slots, st: StreamId) {
    st in s.streams && st <= s.nextId && |Owned(s, st)| <= s.streams[st].inFlight <= s.streams[st].maxInFlight
  }

  /** Jobs owned <= slots counted <= slots allowed, for every stream, and the loop's finding of room still stands. */
  ghost predicate Inv(s: Slots) {
    && (forall st :: st in s.streams ==> StreamOk(s, st))
    && (forall j :: j in s.owner ==> s.owner[j] in s.streams)
    && s.connected <= s.streams.Keys
    && (s.checked.Some? ==> s.checked.value in s.streams
                            && s.streams[s.checked.value].inFlight < s.streams[s.checked.value].maxInFlight)
  }

  lemma {:induction false} SubsetIsSmaller(a: set<Id>, b: set<Id>)
    requires a <= b
    ensures |a| <= |b|
    decreases a
  {
    if a != {} {
      var x :| x in a;
      SubsetIsSmaller(a - {x}, b - {x});
    }
  }

  lemma OwnedAfterRelease(s: Slots, job: Id, st: StreamId)
    requires Inv(s) && st in s.streams && StreamOk(s, st)
    ensures StreamOk(Do(s, Release(job)), st)
  {
    var s' := Do(s, Release(job));
    if job in s.owner && s.owner[job] == st {
      assert Owned(s, st) == Owned(s', st) + {job};
    } else {
      assert Owned(s', st) == Owned(s, st);
    }
  }

  lemma OwnedAfterAssign(s: Slots, job: Id, st: StreamId)
    requires Inv(s) && Enabled(s, Assign(job)) && st in s.streams && StreamOk(s, st)
    ensures StreamOk(Do(s, Assign(job)), st)
  {
    var s' := Do(s, Assign(job));
    if s.checked.value == st {
      SubsetIsSmaller(Owned(s', st), Owned(s, st) + {job});
    } else {
      SubsetIsSmaller(Owned(s', st), Owned(s, st));
    }
  }

  lemma OwnedAfterUnregister(s: Slots, gone: StreamId, st: StreamId)
    requires Enabled(s, Unregister(gone)) && st in s.streams && StreamOk(s, st)
    ensures StreamOk(Do(s, Unregister(gone)), st)
  {
    SubsetIsSmaller(Owned(Do(s, Unregister(gone)), st), Owned(s, st));
  }

  lemma OwnedAfter(s: Slots, a: Act, st: StreamId)
    requires Inv(s) && Enabled(s, a) && st in s.streams
    ensures StreamOk(Do(s, a), st)
  {
    assert StreamOk(s, st);
    match a
    case Unregister(gone) => OwnedAfterUnregister(s, gone, st);
    case Release(job) => OwnedAfterRelease(s, job, st);
    case Assign(job) => OwnedAfterAssign(s, job, st);
    case _ => assert Owned(Do(s, a), st) == Owned(s, st);
  }

  /** No interleaving of the loop with connects, disconnects and releases overfills a stream or undercounts its jobs. */
  lemma StepKeepsInv(s: Slots, a: Act)
    requires Inv(s) && Enabled(s, a)
    ensures Inv(Do(s, a))
  {
    var s' := Do(s, a);
    forall st | st in s'.streams
      ensures StreamOk(s', st)
    {
      if st in s.streams {
        OwnedAfter(s, a, st);
      } else {
        NobodyOwns(s, st);
        assert Owned(s', st) == {};
      }
    }
    if a.Register? {
      IdIsNew(s);
    }
  }

  lemma NobodyOwns(s: Slots, st: StreamId)
    requires Inv(s) && st !in s.streams
    ensures Owned(s, st) == {}
  {
  }

  ghost predicate Run(s: Slots, acts: seq<Act>, s': Slots)
    decreases |acts|
  {
    if acts == [] then s == s' else Enabled(s, acts[0]) && Run(Do(s, acts[0]), acts[1..], s')
  }

  lemma {:induction false} SlotsHold(s: Slots, acts: seq<Act>, s': Slots)
    requires Inv(s) && Run(s, acts, s')
    ensures Inv(s')
    decreases |acts|
  {
    hide Inv, Enabled, Do;
    if acts != [] {
      StepKeepsInv(s, acts[0]);
      SlotsHold(Do(s, acts[0]), acts[1..], s');
    }
  }

  // ------------------------------------------------ when the counts meet ---

  /** Every connected stream counts exactly the jobs it owns. */
  ghost predicate Exact(s: Slots) {
    forall st :: st in s.connected ==> st in s.streams && |Owned(s, st)| == s.streams[st].inFlight
  }

  /** A job that a connected stream still owns is assigned again, as happens when it was nacked and leased once more
      before its release. */
  predicate Reassigns(s: Slots, a: Act) {
    a.Assign? && a.job in s.owner && s.owner[a.job] in s.connected
  }

  lemma ExactAfterRelease(s: Slots, job: Id, st: StreamId)
    requires Inv(s) && Exact(s) && st in s.connected
    ensures var s' := Do(s, Release(job)); st in s'.streams && |Owned(s', st)| == s'.streams[st].inFlight
  {
    var s' := Do(s, Release(job));
    if job in s.owner && s.owner[job] == st {
      assert Owned(s, st) == Owned(s', st) + {job};
      assert job !in Owned(s', st);
    } else {
      assert Owned(s', st) == Owned(s, st);
    }
  }

  lemma ExactAfterAssign(s: Slots, job: Id, st: StreamId)
    requires Inv(s) && Exact(s) && Enabled(s, Assign(job)) && !Reassigns(s, Assign(job)) && st in s.connected
    ensures var s' := Do(s, Assign(job)); st in s'.streams && |Owned(s', st)| == s'.streams[st].inFlight
  {
    var s' := Do(s, Assign(job));
    assert job !in Owned(s, st);
    if s.checked.value == st {
      assert Owned(s', st) == Owned(s, st) + {job};
    } else {
      assert Owned(s', st) == Owned(s, st);
    }
  }

  lemma ReassignBreaks(s: Slots, a: Act)
    requires Inv(s) && Exact(s) && Enabled(s, a) && Reassigns(s, a)
    ensures !Exact(Do(s, a))
  {
    var s' := Do(s, a);
    var st := s.owner[a.job];
    if s.checked.value == st {
      assert Owned(s', st) == Owned(s, st);
    } else {
      assert Owned(s, st) == Owned(s', st) + {a.job};
      assert a.job !in Owned(s', st);
    }
  }

  lemma ExactAfter(s: Slots, a: Act, st: StreamId)
    requires Inv(s) && Exact(s) && Enabled(s, a) && !Reassigns(s, a) && st in Do(s, a).connected
    ensures st in Do(s, a).streams && |Owned(Do(s, a), st)| == Do(s, a).streams[st].inFlight
  {
    match a
    case Register(_, _, _, _) =>
      if st == s.nextId + 1 {
        IdIsNew(s);
        NobodyOwns(s, st);
        assert Owned(Do(s, a), st) == Owned(s, st) == {};
      } else {
        assert Owned(Do(s, a), st) == Owned(s, st);
      }
    case Release(job) => ExactAfterRelease(s, job, st);
    case Assign(job) => ExactAfterAssign(s, job, st);
    case _ => assert Owned(Do(s, a), st) == Owned(s, st);
  }

  lemma IdIsNew(s: Slots)
    requires Inv(s)
    ensures s.nextId + 1 !in s.streams
  {
    assert forall st :: st in s.streams ==> StreamOk(s, st);
  }

  /** From a state in which they meet, a step makes slots counted and jobs owned part if and only if it assigns a job
      that a connected stream still owns. */
  lemma ExactStepIff(s: Slots, a: Act)
    requires Inv(s) && Exact(s) && Enabled(s, a)
    ensures Exact(Do(s, a)) <==> !Reassigns(s, a)
  {
    if Reassigns(s, a) {
      ReassignBreaks(s, a);
    } else {
      forall st | st in Do(s, a).connected
        ensures st in Do(s, a).streams && |Owned(Do(s, a), st)| == Do(s, a).streams[st].inFlight
      {
        ExactAfter(s, a, st);
      }
    }
  }

  ghost predicate NeverReassigns(s: Slots, acts: seq<Act>)
    decreases |acts|
  {
    acts == [] || (Enabled(s, acts[0]) && !Reassigns(s, acts[0]) && NeverReassigns(Do(s, acts[0]), acts[1..]))
  }

  ghost predicate ExactThroughout(s: Slots, acts: seq<Act>)
    decreases |acts|
  {
    Exact(s) && (acts == [] || (Enabled(s, acts[0]) && ExactThroughout(Do(s, acts[0]), acts[1..])))
  }

  /** Over any run from an empty dispatcher they meet throughout if and only if no still-owned job is ever assigned. */
  lemma ExactRunIff(acts: seq<Act>, s: Slots)
    requires Run(Init(), acts, s)
    ensures ExactThroughout(Init(), acts) <==> NeverReassigns(Init(), acts)
  {
    ExactFrom(Init(), acts, s);
  }

  lemma {:induction false} ExactFrom(s: Slots, acts: seq<Act>, s': Slots)
    requires Inv(s) && Exact(s) && Run(s, acts, s')
    ensures ExactThroughout(s, acts) <==> NeverReassigns(s, acts)
    decreases |acts|
  {
    hide Inv, Exact, Enabled, Do, Reassigns;
    if acts != [] {
      ExactStepIff(s, acts[0]);
      if Exact(Do(s, acts[0])) {
        StepKeepsInv(s, acts[0]);
        ExactFrom(Do(s, acts[0]), acts[1..], s');
      } else {
        NotThroughout(Do(s, acts[0]), acts[1..]);
      }
    }
  }

  lemma NotThroughout(s: Slots, acts: seq<Act>)
    requires !Exact(s)
    ensures !ExactThroughout(s, acts)
  {
  }

  /** It does happen: a job nacked and leased again before its release leaves its first stream a slot short. */
  lemma SlotCanLeak() returns (acts: seq<Act>, s: Slots)
    ensures Run(Init(), acts, s) && 1 in s.connected && 1 in s.streams && s.streams[1].inFlight == 1
      && Owned(s, 1) == {}
  {
    acts := [Register("q", "w", 1, 0), Register("q", "w", 1, 0), Check(1), Assign(7), Check(2), Assign(7)];
    s := Slots(map[1 := Stream("q", "w", 1, 0, 1), 2 := Stream("q", "w", 1, 0, 1)], {1, 2}, map[7 := 2], 2, None);
    var s1 := Do(Init(), acts[0]);
    var s2 := Do(s1, acts[1]);
    var s3 := Do(Do(s2, acts[2]), acts[3]);
    var s4 := Do(Do(s3, acts[4]), acts[5]);
    assert s4 == s;
    assert Run(s4, acts[6..], s);
    assert acts[5..][1..] == acts[6..] && acts[4..][1..] == acts[5..] && acts[3..][1..] == acts[4..];
    assert acts[2..][1..] == acts[3..] && acts[1..][1..] == acts[2..];
    assert Run(Do(s3, acts[4]), acts[5..], s);
    assert Run(s3, acts[4..], s);
    assert Run(Do(s2, acts[2]), acts[3..], s);
    assert Run(s2, acts[2..], s);
    assert Run(s1, acts[1..], s);
  }

  // ------------------------------------------------------ the dispatch loop ---

  /** The outside world at one lease: the clock, and whether the log takes the records. */
  datatype Moment = Moment(now: Time, claim: S.Claim, appendOk: bool)

  /** What a stream's turn came to. */
  datatype Turn = Gone | Full | NoJob | Refused | Placed

  /** The jobs waiting to be leased, eligible yet or not. */
  ghost function Waiting(jobs: map<Id, Job>): set<Id> {
    set id | id in jobs && Leasable(jobs[id].state)
  }

  /** The log takes whatever a lease needs. */
  predicate Takes(m: Moment) {
    m.appendOk && m.claim.Flushed?
  }

  /** Nothing of this queue can run at this time. */
  ghost predicate Idle(jobs: map<Id, Job>, queue: string, now: Time) {
    forall id :: id in jobs ==> !S.Candidate(jobs[id], queue, now)
  }

  lemma LeaseTakesOne(m: Image, es: seq<Event>, e: Event, nextEpoch: nat)
    requires es == [] || (|es| == 1 && es[0].EpochReserve?)
    requires e.Lease? && Legit(FoldFrom(m, es), nextEpoch, e)
    ensures |Waiting(Effect(FoldFrom(m, es), e).jobs)| < |Waiting(m.jobs)|
  {
    if es != [] {
      assert es[..0] == [];
    }
    assert FoldFrom(m, es).jobs == m.jobs;
    assert Waiting(Effect(FoldFrom(m, es), e).jobs) == Waiting(m.jobs) - {e.id};
  }

  /** The two ways a turn with room can go on. */
  lemma TurnSteps(s: Slots, st: StreamId)
    requires s.checked.None? && st in s.streams && s.streams[st].inFlight < s.streams[st].maxInFlight
    ensures Enabled(s, Check(st)) && Do(s, Check(st)).streams == s.streams
    ensures Enabled(Do(s, Check(st)), GiveUp) && Do(Do(s, Check(st)), GiveUp) == s
    ensures forall job :: Enabled(Do(s, Check(st)), Assign(job)) && var s' := Do(Do(s, Check(st)), Assign(job));
                            s'.checked.None? && s'.streams.Keys == s.streams.Keys
  {
  }

  /** What a turn that gives nothing leaves alone. */
  datatype Scene = Scene(slots: Slots, alive: set<StreamId>, jobs: map<Id, Job>, failed: bool)

  /** Why a stream is given nothing: it is cancelled, or full, or no job of its queue could run when it asked, or the
      store refused the lease. */
  ghost predicate Sated(c: Scene, st: StreamId, now: Time, turn: Turn) {
    match turn
    case Gone => st !in c.alive
    case Full => st in c.slots.streams && c.slots.streams[st].inFlight == c.slots.streams[st].maxInFlight
    case NoJob => st in c.slots.streams && Idle(c.jobs, c.slots.streams[st].queue, now)
    case Refused => true
    case Placed => false
  }

  /** The first |turns| streams are. */
  ghost predicate AllSated(c: Scene, order: seq<StreamId>, world: nat -> Moment, turns: seq<Turn>) {
    |turns| <= |order| && forall i :: 0 <= i < |turns| ==> Sated(c, order[i], world(i).now, turns[i])
  }

  lemma OneMoreSated(c: Scene, order: seq<StreamId>, world: nat -> Moment, turns: seq<Turn>, turn: Turn)
    requires AllSated(c, order, world, turns) && |turns| < |order| && Sated(c, order[|turns|], world(|turns|).now, turn)
    ensures AllSated(c, order, world, turns + [turn])
  {
  }

  /** Every refusal has its reason: a store in order that can log what its stream's turn needs refuses nobody. */
  ghost predicate RefusedForCause(failed: bool, world: nat -> Moment, turns: seq<Turn>) {
    forall i :: 0 <= i < |turns| && turns[i].Refused? ==> failed || !Takes(world(i))
  }

  lemma OneMoreTurn(failed: bool, world: nat -> Moment, turns: seq<Turn>, turn: Turn)
    requires RefusedForCause(failed, world, turns) && (turn.Refused? ==> failed || !Takes(world(|turns|)))
    ensures RefusedForCause(failed, world, turns + [turn])
  {
  }

  class Dispatcher {
    const store: S.Store
    var slots: Slots
    /** Streams whose context is not cancelled. */
    var alive: set<StreamId>

    constructor (store: S.Store)
      ensures Inv(slots) && Exact(slots) && slots == Init() && this.store == store
    {
      this.store := store;
      slots, alive := Init(), {};
    }

    ghost predicate Valid()
      reads this, store, store.index
    {
      Inv(slots) && store.Valid()
    }

    method Step(a: Act)
      requires Inv(slots) && Enabled(slots, a)
      modifies `slots
      ensures Inv(slots) && slots == Do(old(slots), a)
    {
      StepKeepsInv(slots, a);
      slots := Do(slots, a);
    }

    /** What makes the store refuse a lease: it is poisoned, or the log took no record, or a token was needed and could
        not be claimed. */
    ghost predicate Refuses(m: Moment)
      reads store
    {
      store.failed || !m.appendOk || (store.nextEpoch > store.epochReservedUpTo && !m.claim.Flushed?)
    }

    ghost function Now(): Scene
      reads this, store
    {
      Scene(slots, alive, store.jobs, store.failed)
    }

    /** Undisturbed, dispatch ends, and only when at the last pass every live stream was full, or had no job of its
        queue to run when it asked, or was refused by a store that could not log. Each pass gives a stream at most one
        job, so no stream is served twice while another waits. world(k)(i) is the outside world when pass k turns to
        stream i. */
    method Dispatch(order: seq<StreamId>, world: nat -> nat -> Moment)
      returns (ghost passes: seq<seq<StreamId>>, ghost last: nat, ghost turns: seq<Turn>)
      requires Valid() && slots.checked.None?
      requires forall i :: 0 <= i < |order| ==> order[i] in slots.streams
      requires forall i, j :: 0 <= i < j < |order| ==> order[i] != order[j]
      modifies `slots, store, store.index
      ensures Valid() && slots.checked.None? && slots.streams.Keys == old(slots).streams.Keys
      ensures |passes| == last + 1 && forall p :: 0 <= p < |passes| ==> OnePerStream(passes[p])
      ensures |turns| == |order| && AllSated(Now(), order, world(last), turns)
      ensures RefusedForCause(store.failed, world(last), turns)
    {
      passes, last, turns := [], 0, [];
      var k: nat := 0;
      while true
        invariant Valid() && slots.checked.None? && slots.streams.Keys == old(slots).streams.Keys
        invariant store.index == old(store.index)
        invariant |passes| == k && forall p :: 0 <= p < |passes| ==> OnePerStream(passes[p])
        decreases |Waiting(store.jobs)|
      {
        hide Inv, OnePerStream, AllSated, RefusedForCause, Waiting;
        var placed;
        ghost var pass;
        placed, pass, turns := Pass(order, world(k));
        passes := passes + [pass];
        last := k;
        if !placed {
          return;
        }
        k := k + 1;
      }
    }

    ghost predicate OnePerStream(pass: seq<StreamId>) {
      forall i, j :: 0 <= i < j < |pass| ==> pass[i] != pass[j]
    }

    /** A pass has given at most one job to each of the first n streams. */
    ghost predicate ServedOf(pass: seq<StreamId>, order: seq<StreamId>, n: nat) {
      n <= |order| && OnePerStream(pass) && forall k :: 0 <= k < |pass| ==> pass[k] in order[..n]
    }

    lemma OneMoreServed(pass: seq<StreamId>, order: seq<StreamId>, n: nat)
      requires n < |order| && ServedOf(pass, order, n)
      requires forall i, j :: 0 <= i < j < |order| ==> order[i] != order[j]
      ensures ServedOf(pass, order, n + 1) && ServedOf(pass + [order[n]], order, n + 1)
    {
      assert order[n] !in order[..n] && order[..n + 1] == order[..n] + [order[n]];
    }

    lemma RoomOrFull(st: StreamId)
      requires Inv(slots) && st in slots.streams
      ensures slots.streams[st].inFlight <= slots.streams[st].maxInFlight
    {
      assert StreamOk(slots, st);
    }

    /** One pass over the streams. If it placed nothing, every stream was sated at its turn, and still is. */
    method Pass(order: seq<StreamId>, world: nat -> Moment)
      returns (placed: bool, ghost pass: seq<StreamId>, ghost turns: seq<Turn>)
      requires Valid() && slots.checked.None?
      requires forall i :: 0 <= i < |order| ==> order[i] in slots.streams
      requires forall i, j :: 0 <= i < j < |order| ==> order[i] != order[j]
      modifies `slots, store, store.index
      ensures Valid() && slots.checked.None? && slots.streams.Keys == old(slots).streams.Keys
        && store.index == old(store.index)
      ensures OnePerStream(pass) && (placed <==> pass != [])
      ensures placed ==> |Waiting(store.jobs)| < |old(Waiting(store.jobs))|
      ensures |turns| == |order| && RefusedForCause(store.failed, world, turns)
      ensures !placed ==> Now() == old(Now()) && AllSated(Now(), order, world, turns)
    {
      placed, pass, turns := false, [], [];
      for i := 0 to |order|
        invariant Valid() && slots.checked.None? && slots.streams.Keys == old(slots).streams.Keys
          && store.index == old(store.index)
        invariant ServedOf(pass, order, i) && (placed <==> pass != [])
        invariant if placed then |Waiting(store.jobs)| < |old(Waiting(store.jobs))| else Now() == old(Now())
        invariant |turns| == i && store.failed == old(store.failed) && RefusedForCause(store.failed, world, turns)
        invariant !placed ==> AllSated(Now(), order, world, turns)
      {
        hide Inv, ServedOf, Waiting, AllSated, Sated, RefusedForCause, S.IsBest, Enabled, Do, S.Store.Valid;
        ghost var scene := Now();
        var turn, _ := Serve(order[i], world(i));
        OneMoreTurn(store.failed, world, turns, turn);
        OneMoreServed(pass, order, i);
        if turn.Placed? {
          placed, pass := true, pass + [order[i]];
        } else if !placed {
          OneMoreSated(scene, order, world, turns, turn);
        }
        turns := turns + [turn];
      }
    }

    /** Gives one stream at most one job, the best of its queue. If it gives none, the stream is sated and nothing but
        the index and the token count can have changed. */
    method Serve(st: StreamId, m: Moment) returns (turn: Turn, job: Id)
      requires Valid() && slots.checked.None? && st in slots.streams
      modifies `slots, store, store.index
      ensures Valid() && slots.checked.None? && slots.streams.Keys == old(slots).streams.Keys
        && store.index == old(store.index)
      ensures store.failed == old(store.failed)
      ensures turn.Refused? ==> old(Refuses(m))
      ensures turn.Refused? ==> store.failed || !Takes(m)
      ensures !turn.Placed? ==> Now() == old(Now()) && Sated(Now(), st, m.now, turn)
      ensures turn.Placed? ==> |Waiting(store.jobs)| < |old(Waiting(store.jobs))|
      ensures turn.Placed? ==> st in alive && S.IsBest(old(store.jobs), old(slots).streams[st].queue, m.now, job)
      ensures turn.Placed? ==> Enabled(old(slots), Check(st)) && slots == Do(Do(old(slots), Check(st)), Assign(job))
      ensures turn.Placed? ==>
        && job in store.jobs && store.jobs[job].state == Leased
        && store.jobs[job].leasedBy == old(slots).streams[st].worker
        && store.jobs[job].leaseExpiresAt == m.now + old(slots).streams[st].leaseDur
    {
      hide Inv, Enabled, Do, Waiting, Idle, S.IsBest, S.Store.Valid;
      job := 0;
      if st !in alive {
        turn := Gone;
        return;
      }
      RoomOrFull(st);
      if slots.streams[st].inFlight >= slots.streams[st].maxInFlight {
        turn := Full;
        return;
      }
      TurnSteps(slots, st);
      Step(Check(st));
      turn, job := Ask(slots.streams[st], m);
      if !turn.Placed? {
        Step(GiveUp);
        return;
      }
      Step(Assign(job));
    }

    /** Asks the store for the best job of a stream's queue. */
    method Ask(st: Stream, m: Moment) returns (turn: Turn, job: Id)
      requires store.Valid()
      modifies store, store.index
      ensures store.Valid() && store.index == old(store.index) && store.failed == old(store.failed)
      ensures turn.NoJob? || turn.Refused? || turn.Placed?
      ensures !turn.Placed? ==> store.jobs == old(store.jobs)
      ensures turn.NoJob? ==> Idle(store.jobs, st.queue, m.now)
      ensures turn.Refused? ==> old(Refuses(m)) && exists id :: S.IsBest(store.jobs, st.queue, m.now, id)
      ensures turn.Placed? ==> S.IsBest(old(store.jobs), st.queue, m.now, job)
      ensures turn.Placed? ==> |Waiting(store.jobs)| < |old(Waiting(store.jobs))|
      ensures turn.Placed? ==>
        && job in store.jobs && store.jobs[job].state == Leased && store.jobs[job].leasedBy == st.worker
        && store.jobs[job].leaseExpiresAt == m.now + st.leaseDur
    {
      hide Waiting, S.Candidate, S.IndexHonest, S.NoneStranded, IdemExact, FoldFrom, Effect, Legit;
      ghost var m0, es := store.View(), store.Reservation();
      job := 0;
      var r := store.Lease(st.queue, st.worker, m.now, st.leaseDur, m.claim, _ => m.appendOk);
      match r {
        case Nothing => turn := NoJob;
        case LeaseRefused => turn := Refused;
        case Granted(j) =>
          turn, job := Placed, j.spec.id;
          ghost var e := Event.Lease(job, old(store.nextEpoch), st.worker, m.now + st.leaseDur,
            old(store.jobs)[job].attempt + 1);
          LeaseTakesOne(m0, es, e, old(store.nextEpoch));
          LeasedTo(FoldFrom(m0, es), e, old(store.nextEpoch));
      }
    }
  }

  lemma LeasedTo(m: Image, e: Event, nextEpoch: nat)
    requires e.Lease? && Legit(m, nextEpoch, e)
    ensures var jobs := Effect(m, e).jobs;
            && e.id in jobs && jobs[e.id].state == Leased && jobs[e.id].leasedBy == e.worker
            && jobs[e.id].leaseExpiresAt == e.expires
  {
  }
}
