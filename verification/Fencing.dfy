/** Fencing tokens, over every run. */
module Fencing {
  import opened Jobs
  import opened Recovery
  import opened System
  import opened Core
  import opened Runs
  import G = GroupCommit

  /** The ceiling a recovery is bound to find, whatever the next crash loses. */
  ghost function StableCeiling(s: Broker): nat
    requires G.Durable(s.gc) <= |s.log|
  {
    Fold(s.log[..G.Durable(s.gc)]).ceiling
  }

  /** Tokens rise; each is below the next one to hand out and under a ceiling that is already durable. */
  ghost predicate TokenInv(s: Broker) {
    && G.Durable(s.gc) <= |s.log|
    && (forall i, j :: 0 <= i < j < |s.issued| ==> s.issued[i] < s.issued[j])
    && (forall t :: t in s.issued ==> t < s.nextEpoch && t <= StableCeiling(s))
    && s.nextEpoch <= s.img.ceiling + 1
    && (s.nextEpoch <= s.img.ceiling ==> s.img.ceiling <= StableCeiling(s))
    && (s.lock.Reserving? ==> s.nextEpoch <= s.lock.upTo)
  }

  /** Leases out under distinct tokens, none of them closed. */
  ghost predicate FenceInv(s: Broker) {
    && (forall t :: t in s.closed ==> t in s.issued)
    && (forall id :: id in s.img.jobs && s.img.jobs[id].state == Leased ==>
          s.img.jobs[id].epoch in s.issued && s.img.jobs[id].epoch !in s.closed)
    && (forall x, y :: x in s.img.jobs && y in s.img.jobs && x != y
                       && s.img.jobs[x].state == Leased && s.img.jobs[y].state == Leased
          ==> s.img.jobs[x].epoch != s.img.jobs[y].epoch)
  }

  lemma TokenRecord(s: Broker, e: Event, ch: G.Ch)
    requires CoreInv(s) && TokenInv(s) && Enabled(s, Record(e, ch), true)
    ensures TokenInv(Do(s, Record(e, ch), true))
  {
    hide G.Inv, SoundLog, SnapInv, CapInv, MemInv, Fold;
    var d := G.Durable(s.gc);
    var s' := Do(s, Record(e, ch), true);
    assert s'.log[..d] == s.log[..d] && G.Durable(s'.gc) == d;
    assert StableCeiling(s') == StableCeiling(s);
    assert s'.img.ceiling == s.img.ceiling;
    if e.Lease? {
      assert s'.issued == s.issued + [s.nextEpoch];
      assert forall i :: 0 <= i < |s.issued| ==> s.issued[i] in s.issued;
      assert forall t :: t in s'.issued ==> t in s.issued || t == s.nextEpoch;
    }
  }

  lemma TokenReserve(s: Broker, block: nat, tid: G.Tid)
    requires CoreInv(s) && TokenInv(s) && Enabled(s, Reserve(block, tid), true)
    ensures TokenInv(Do(s, Reserve(block, tid), true))
  {
    hide G.Inv, SoundLog, SnapInv, CapInv, MemInv, Fold;
    var d := G.Durable(s.gc);
    assert (s.log + [EpochReserve(s.nextEpoch + block - 1)])[..d] == s.log[..d];
  }

  /** The reservation is applied only after its record is durable, so handing out from it is safe at once. */
  lemma TokenReserveDone(s: Broker)
    requires CoreInv(s) && TokenInv(s) && Enabled(s, ReserveDone, true)
    ensures TokenInv(Do(s, ReserveDone, true))
  {
    hide SoundLog, SnapInv, CapInv, Fold, G.OwedInv, G.LoopInv, G.PromiseInv;
    assert G.SyncOk(s.gc, s.gc.syncs[s.lock.tid]);
    assert s.log[..|s.log|] == s.log;
    var n := |s.log| - 1;
    FoldNext(s.log, n);
    CeilingRises(s.log, n, |s.log|);
  }

  lemma TokenInner(s: Broker, b: G.Act)
    requires CoreInv(s) && TokenInv(s) && Enabled(s, Inner(b), true)
    ensures TokenInv(Do(s, Inner(b), true))
  {
    GcStep(s, Inner(b));
    DurableWithinLog(G.Do(s.gc, b));
    hide G.Inv, SoundLog, SnapInv, CapInv, MemInv, Fold, G.Do, G.Durable;
    CeilingRises(s.log, G.Durable(s.gc), G.Durable(Do(s, Inner(b), true).gc));
  }

  lemma TokenCrash(s: Broker, kept: nat, stable: nat, now: Time)
    requires CoreInv(s) && TokenInv(s) && Enabled(s, Crash(kept, stable, now), true)
    ensures TokenInv(Do(s, Crash(kept, stable, now), true))
  {
    hide G.Inv, SoundLog, SnapInv, CapInv, MemInv, Fold, Recover, Follows;
    RecoverFollows(s, kept, now);
    G.RebootInv(s.gc.base, stable, kept);
    CeilingRises(s.log, G.Durable(s.gc), stable);
    CeilingRises(s.log, stable, kept);
    assert s.log[..kept][..stable] == s.log[..stable];
  }

  lemma TokenQuiet(s: Broker, a: Act)
    requires CoreInv(s) && TokenInv(s) && Enabled(s, a, true)
      && (a.Beat? || a.Capture? || a.Read? || a.Publish? || a.Truncate? || a.Forfeit? || a.Dedup?)
    ensures TokenInv(Do(s, a, true))
  {
    hide G.Inv, SoundLog, SnapInv, CapInv, MemInv, Fold;
  }

  lemma TokenStep(s: Broker, a: Act)
    requires CoreInv(s) && TokenInv(s) && Enabled(s, a, true)
    ensures TokenInv(Do(s, a, true))
  {
    hide CoreInv, TokenInv, Enabled, Do;
    match a
    case Record(e, ch) => TokenRecord(s, e, ch);
    case Reserve(block, tid) => TokenReserve(s, block, tid);
    case ReserveDone => TokenReserveDone(s);
    case Inner(b) => TokenInner(s, b);
    case Crash(kept, stable, now) => TokenCrash(s, kept, stable, now);
    case _ => TokenQuiet(s, a);
  }

  lemma FenceRecord(s: Broker, e: Event, ch: G.Ch)
    requires TokenInv(s) && FenceInv(s) && Enabled(s, Record(e, ch), true)
    ensures FenceInv(Do(s, Record(e, ch), true))
  {
    hide StableCeiling;
    if e.Lease? {
      assert e.epoch !in s.issued;
    }
  }

  lemma FenceStep(s: Broker, a: Act)
    requires TokenInv(s) && FenceInv(s) && Enabled(s, a, true)
    ensures FenceInv(Do(s, a, true))
  {
    hide StableCeiling;
    match a
    case Record(e, ch) => FenceRecord(s, e, ch);
    case Crash(kept, stable, now) => RecoveredIsUnleased(s, kept, now);
    case _ => hide G.Do, G.Enabled, TokenInv, Recover;
  }

  lemma RecoveredIsUnleased(s: Broker, kept: nat, now: Time)
    requires 1 <= s.first && kept <= |s.log|
    ensures var jobs := Recover(s.snap, s.first, s.log[..kept], now).jobs;
            forall id :: id in jobs ==> jobs[id].state != Leased
  {
  }

  // ----------------------------------------------------------------- runs ---

  ghost predicate Inv(s: Broker) {
    CoreInv(s) && TokenInv(s) && FenceInv(s)
  }

  lemma InvStep(s: Broker, a: Act)
    requires Inv(s) && Enabled(s, a, true)
    ensures Inv(Do(s, a, true))
  {
    hide CoreInv, TokenInv, FenceInv, Enabled, Do;
    CoreStep(s, a);
    TokenStep(s, a);
    FenceStep(s, a);
  }

  /** What has been handed out and what has been closed stays so. */
  lemma HistoryGrows(s: Broker, a: Act)
    requires Enabled(s, a, true) && forall t :: t in s.closed ==> t in s.issued
    ensures s.issued <= Do(s, a, true).issued && s.closed <= Do(s, a, true).closed
  {
    hide G.Do, G.Enabled, Recover, Legit, Effect, InnerEnabled, Acknowledges;
  }

  lemma InitInv()
    ensures Inv(Init())
  {
    G.RebootInv(0, 0, 0);
    assert Init().log[..0] == [];
  }

  lemma {:induction false} RunKeepsInv(s: Broker, acts: seq<Act>, s': Broker)
    requires Inv(s) && Run(s, acts, true, s')
    ensures Inv(s') && s.issued <= s'.issued && s.closed <= s'.closed
    decreases |acts|
  {
    hide CoreInv, TokenInv, Enabled, Do;
    if acts != [] {
      InvStep(s, acts[0]);
      HistoryGrows(s, acts[0]);
      RunKeepsInv(Do(s, acts[0], true), acts[1..], s');
    }
  }

  /** Fencing tokens never repeat: over any run with any number of crashes, every token handed out exceeds every token
      handed out before, including those whose lease records were lost. */
  lemma TokensNeverRepeat(acts: seq<Act>, s: Broker, e: Event, ch: G.Ch)
    requires Run(Init(), acts, true, s) && Enabled(s, Record(e, ch), true) && e.Lease?
    ensures forall t :: t in s.issued ==> t < e.epoch
    ensures Do(s, Record(e, ch), true).issued == s.issued + [e.epoch]
  {
    InitInv();
    RunKeepsInv(Init(), acts, s);
  }

  /** A lease is closed at most once, and only one that was handed out. */
  lemma ClosedAtMostOnce(acts: seq<Act>, s: Broker, e: Event, ch: G.Ch)
    requires Run(Init(), acts, true, s) && Enabled(s, Record(e, ch), true) && (e.Ack? || e.Fail?)
    ensures e.epoch in s.issued && e.epoch !in s.closed && e.epoch in Do(s, Record(e, ch), true).closed
  {
    InitInv();
    RunKeepsInv(Init(), acts, s);
  }

  /** A token whose lease was acked, failed, reclaimed or cut off by a restart is refused for every job, for good. */
  lemma ClosedTokenIsRefused(before: seq<Act>, s: Broker, t: nat, after: seq<Act>, s': Broker, id: Id)
    requires Run(Init(), before, true, s) && t in s.closed && Run(s, after, true, s')
    ensures !(id in s'.img.jobs && HoldsLease(s'.img.jobs[id], t))
  {
    InitInv();
    RunKeepsInv(Init(), before, s);
    RunKeepsInv(s, after, s');
  }

  /** Every token handed out before a restart is refused for every job in every state after it. */
  lemma RestartFencesAll(before: seq<Act>, s: Broker, kept: nat, stable: nat, now: Time, after: seq<Act>, s': Broker,
      t: nat, id: Id)
    requires Run(Init(), before, true, s) && t in s.issued && Enabled(s, Crash(kept, stable, now), true)
    requires Run(Do(s, Crash(kept, stable, now), true), after, true, s')
    ensures !(id in s'.img.jobs && HoldsLease(s'.img.jobs[id], t))
  {
    hide Inv, Recover;
    var acts, s1 := Then(Init(), before, s, Crash(kept, stable, now), true);
    ClosedTokenIsRefused(acts, s1, t, after, s', id);
  }
}
