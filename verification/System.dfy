/** The whole broker as one machine: store operations, the group committer, token reservations, snapshots,
    deletion of old segments, and crashes at any moment. Steps interleave wherever the program releases a lock. */
module System {
  import opened Jobs
  import opened Recovery
  import G = GroupCommit

  /** A snapshot between the release of the store lock and its rename into place. `base` is the job map the pointers
      were taken from; `jobs` is what has been encoded so far, and `observed` the log length at the latest read. */
  datatype Capture =
    | Idle
    | Encoding(lsn: nat, ceiling: nat, base: map<Id, Job>, jobs: map<Id, Job>, read: set<(Id, Field)>, observed: nat)

  /** A token reservation between its append and its return from the flush; the store lock is held throughout. */
  datatype Reservation = Unlocked | Reserving(tid: G.Tid, upTo: nat)

  datatype Broker = Broker(
    // On disk. The log is kept whole here; records below LSN `first` are in deleted segments.
    log: seq<Event>, first: nat, snap: Snapshot, gc: G.State,
    // In memory.
    img: Image, nextEpoch: nat, lock: Reservation, cap: Capture,
    calls: map<G.Ch, nat>,                       // operations whose record is in the log at that LSN
    // History.
    granted: set<(nat, Event)>,                  // records acknowledged with success, with their LSNs
    issued: seq<nat>,                            // every fencing token handed out, oldest first
    closed: set<nat>,                            // tokens whose lease is over: acked, failed, or cut off by a restart
    delivered: map<Id, nat>,                     // deliveries since submission, replay or the last restart
    native: set<Id>,                             // jobs submitted or replayed since the last restart
    answered: set<Id>,                           // jobs that deduplicated submissions were answered with
    // the log length at the visible snapshot's last read, or at the last crash
    covered: nat,
    exact: bool)                                 // whether the visible snapshot fitted what the last crash kept

  datatype Act =
    | Record(e: Event, ch: G.Ch)                 // an operation's critical section that logs one event
    | Beat(id: Id, epoch: nat, until: Time)
    | Dedup(queue: string, key: string)          // a submission answered at once with the job its key names
    | Reserve(block: nat, tid: G.Tid) | ReserveDone
    | Forfeit                                    // a token taken for a lease whose append is then refused
    | Inner(a: G.Act)                            // a step of the log or the committer
    | Capture | Read(id: Id, f: Field) | Publish
    | Truncate(first: nat)
    | Crash(kept: nat, stable: nat, now: Time)

  function Init(): Broker {
    Broker([], 1, NO_SNAPSHOT, G.Init(), EMPTY, 1, Unlocked, Idle, map[], {}, [], {}, map[], {}, {}, 0, true)
  }

  /** A job as the encoder's buffer has it before any field has been read. */
  function Blank(j: Job): Job {
    Job(j.spec, 0, Pending, 0, ZERO_TIME, ZERO_TIME, "", "")
  }

  /** Threads that may call Sync: a flush loop, or the operation reserving tokens. */
  predicate MaySync(s: Broker, t: G.Tid) {
    t in s.gc.loops || (s.lock.Reserving? && s.lock.tid == t)
  }

  ghost predicate InnerEnabled(s: Broker, a: G.Act) {
    && G.Enabled(s.gc, a)
    && match a
       case Append => false
       case Join(ch, tid) => ch in s.calls && !(s.lock.Reserving? && s.lock.tid == tid)
       case Write(tid) => MaySync(s, tid)
       case Fail(tid) => MaySync(s, tid)
       case Return(tid) => tid in s.gc.loops
       case _ => true
  }

  /** When `guarded`, a snapshot becomes visible only once the log is durable up to its LSN. The program does not
      check. */
  ghost predicate Enabled(s: Broker, a: Act, guarded: bool) {
    match a
    case Record(e, ch) => s.lock.Unlocked? && Legit(s.img, s.nextEpoch, e) && ch !in s.calls && ch !in s.gc.joined
    case Beat(id, epoch, _) => s.lock.Unlocked? && id in s.img.jobs && HoldsLease(s.img.jobs[id], epoch)
    case Dedup(queue, key) => s.lock.Unlocked? && key != "" && IdemKey(queue, key) in s.img.idem
    case Reserve(block, tid) =>
      s.lock.Unlocked? && 0 < block && s.img.ceiling < s.nextEpoch && tid !in s.gc.loops && tid !in s.gc.syncs
    case ReserveDone => s.lock.Reserving? && s.lock.tid in s.gc.syncs && s.gc.syncs[s.lock.tid].Synced?
      && s.lock.tid !in s.gc.loops
    case Forfeit => s.lock.Unlocked? && s.nextEpoch <= s.img.ceiling
    case Inner(b) => InnerEnabled(s, b)
    case Capture => s.lock.Unlocked? && s.cap.Idle?
    case Read(id, _) => s.cap.Encoding? && id in s.cap.base && id in s.cap.jobs && id in s.img.jobs
    case Publish => s.cap.Encoding? && Complete(s.cap.base, s.cap.read) && (guarded ==> s.cap.lsn <= G.Durable(s.gc))
    case Truncate(first) => s.first <= first <= s.snap.lsn + 1 && first <= s.gc.base + 1
    case Crash(kept, stable, _) =>
      1 <= s.first && s.gc.base <= G.Durable(s.gc) <= stable <= kept <= |s.log|
  }

  /** The record a reply acknowledges, if the step is a successful reply. */
  ghost function Acknowledges(s: Broker, a: G.Act): set<(nat, Event)>
    requires InnerEnabled(s, a)
  {
    if a.Reply? && s.gc.loops[a.tid].ok && s.gc.loops[a.tid].batch != [] then
      var ch := s.gc.loops[a.tid].batch[0];
      if ch in s.calls && 0 < s.calls[ch] <= |s.log| then {(s.calls[ch], s.log[s.calls[ch] - 1])} else {}
    else {}
  }

  function Deliver(delivered: map<Id, nat>, e: Event): map<Id, nat> {
    match e
    case Submit(j) => delivered[j.spec.id := 0]
    case ReplayJob(id, _) => delivered[id := 0]
    case Lease(id, _, _, _, _) => if id in delivered then delivered[id := delivered[id] + 1] else delivered
    case _ => delivered
  }

  function Native(native: set<Id>, e: Event): set<Id> {
    if e.Submit? then native + {e.job.spec.id} else if e.ReplayJob? then native + {e.id} else native
  }

  ghost function DoRecord(s: Broker, e: Event, ch: G.Ch): Broker {
    s.(log := s.log + [e], gc := G.Do(s.gc, G.Append), img := Effect(s.img, e), calls := s.calls[ch := |s.log| + 1],
       nextEpoch := if e.Lease? then s.nextEpoch + 1 else s.nextEpoch,
       issued := if e.Lease? then s.issued + [e.epoch] else s.issued,
       closed := if e.Ack? || e.Fail? then s.closed + {e.epoch} else s.closed,
       delivered := Deliver(s.delivered, e),
       native := Native(s.native, e))
  }

  /** Whether the visible snapshot, with the records a crash keeps after it, adds up to what was logged. */
  ghost predicate SnapshotFits(s: Broker, kept: nat) {
    && s.snap.lsn <= kept <= |s.log|
    && Fits(Fold(s.log[..s.snap.lsn]).jobs, s.snap.jobs, s.log[s.snap.lsn..kept])
  }

  ghost function DoCrash(s: Broker, kept: nat, stable: nat, now: Time): Broker
    requires Enabled(s, Crash(kept, stable, now), true)
  {
    var log := s.log[..kept];
    var img := Recover(s.snap, s.first, log, now);
    s.(log := log, gc := G.Reboot(s.gc.base, stable, kept), img := img, nextEpoch := img.ceiling + 1,
       lock := Unlocked, cap := Idle, calls := map[], closed := (set t | t in s.issued),
       delivered := map id | id in img.jobs :: 0, native := {},
       covered := kept, exact := SnapshotFits(s, kept))
  }

  ghost function Do(s: Broker, a: Act, guarded: bool): Broker
    requires Enabled(s, a, guarded)
  {
    match a
    case Record(e, ch) => DoRecord(s, e, ch)
    case Beat(id, _, until) => s.(img := s.img.(jobs := s.img.jobs[id := s.img.jobs[id].(leaseExpiresAt := until)]))
    case Dedup(queue, key) => s.(answered := s.answered + {s.img.idem[IdemKey(queue, key)]})
    case Reserve(block, tid) =>
      var upTo := s.nextEpoch + block - 1;
      s.(log := s.log + [EpochReserve(upTo)], gc := G.Do(s.gc, G.Append), lock := Reserving(tid, upTo))
    case ReserveDone =>
      s.(gc := G.Do(s.gc, G.Return(s.lock.tid)), img := Effect(s.img, EpochReserve(s.lock.upTo)), lock := Unlocked)
    case Forfeit => s.(nextEpoch := s.nextEpoch + 1)
    case Inner(b) => s.(gc := G.Do(s.gc, b), granted := s.granted + Acknowledges(s, b))
    case Capture =>
      s.(cap := Encoding(|s.log|, s.img.ceiling, s.img.jobs, map id | id in s.img.jobs :: Blank(s.img.jobs[id]), {},
        |s.log|))
    case Read(id, f) =>
      s.(cap := s.cap.(jobs := s.cap.jobs[id := Copy(f, s.cap.jobs[id], s.img.jobs[id])],
                       read := s.cap.read + {(id, f)}, observed := |s.log|))
    case Publish =>
      s.(snap := Snapshot(s.cap.lsn, s.cap.ceiling, s.cap.jobs), covered := s.cap.observed, cap := Idle)
    case Truncate(first) => s.(first := first)
    case Crash(kept, stable, now) => DoCrash(s, kept, stable, now)
  }

  ghost predicate Run(s: Broker, acts: seq<Act>, guarded: bool, s': Broker)
    decreases |acts|
  {
    if acts == [] then s == s' else Enabled(s, acts[0], guarded) && Run(Do(s, acts[0], guarded), acts[1..], guarded, s')
  }

  lemma InnerStep(s: Broker, b: G.Act, guarded: bool)
    ensures Enabled(s, Inner(b), guarded) <==> InnerEnabled(s, b)
    ensures InnerEnabled(s, b) ==>
      Do(s, Inner(b), guarded) == s.(gc := G.Do(s.gc, b), granted := s.granted + Acknowledges(s, b))
  {
  }
}
