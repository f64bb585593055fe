/** The group committer and the flush it shares, as a protocol whose threads interleave at every lock release.

    Record counts stand for positions in the log: the first `written` of the `appended` records are in files,
    the first `base` of those are in closed segments, and stable storage holds what Durable says. */
module GroupCommit {
  import opened Numbers

  type Tid = nat                                 // a thread that flushes
  type Ch = nat                                  // the reply channel of one commit call

  /** Where a thread stands inside Sync. The target is what had been appended when it drained the buffer; upTo is how
      many records the active file held when the flush of that file began. */
  datatype SyncPc = Wrote(target: nat) | Flushing(target: nat, upTo: nat) | Synced(target: nat) | Failed

  /** Where a flush loop stands. */
  datatype LoopPc = Top | Syncing(batch: seq<Ch>) | Replying(batch: seq<Ch>, ok: bool)

  datatype State = State(
    appended: nat, written: nat, base: nat,
    sealed: nat,                                 // of the records in closed segments, how many are stable
    synced: nat,                                 // of the records in the active segment, how many are stable
    broken: bool,                                // a write or a flush has failed in this run
    syncs: map<Tid, SyncPc>,
    waiters: seq<Ch>, running: bool, loops: map<Tid, LoopPc>,
    joined: map<Ch, nat>,                        // commit calls, with the log length each one found
    replied: map<Ch, bool>)                      // replies sent; true is a nil error

  datatype Act =
    | Append | Rotate
    | Join(ch: Ch, tid: Tid)                     // commit's critical section; tid is the loop it may start
    | Take(tid: Tid)                             // flushLoop's critical section
    | Write(tid: Tid) | Begin(tid: Tid) | End(tid: Tid) | Fail(tid: Tid)
    | Return(tid: Tid)                           // Sync returns to its caller
    | Reply(tid: Tid)

  /** The length of the longest prefix of the log that is on stable storage. */
  function Durable(g: State): nat {
    if g.sealed < g.base then g.sealed else g.base + g.synced
  }

  function Init(): State {
    Reboot(0, 0, 0)
  }

  /** A freshly opened log of `kept` records, of which the first `stable` are on stable storage. */
  function Reboot(base: nat, stable: nat, kept: nat): State
    requires base <= stable
  {
    State(kept, kept, base, base, stable - base, false, map[], [], false, map[], map[], map[])
  }

  ghost predicate Flushes(g: State, t: Tid) {
    t in g.syncs && g.syncs[t].Flushing?
  }

  ghost predicate Enabled(g: State, a: Act) {
    match a
    case Append => true
    case Rotate => !g.broken && g.base < g.appended && forall t :: !Flushes(g, t)
    case Join(ch, tid) => ch !in g.joined && tid !in g.loops && tid !in g.syncs
    case Take(tid) => tid in g.loops && g.loops[tid].Top?
    case Write(tid) => !g.broken && tid !in g.syncs && (tid in g.loops ==> g.loops[tid].Syncing?)
    case Begin(tid) => !g.broken && tid in g.syncs && g.syncs[tid].Wrote?
    case End(tid) => !g.broken && tid in g.syncs && g.syncs[tid].Flushing?
    case Fail(tid) =>
      if tid in g.syncs then g.syncs[tid].Wrote? || g.syncs[tid].Flushing?
      else tid in g.loops ==> g.loops[tid].Syncing?
    case Return(tid) => tid in g.syncs && (g.syncs[tid].Synced? || g.syncs[tid].Failed?)
      && (tid in g.loops ==> g.loops[tid].Syncing?)
    case Reply(tid) => tid in g.loops && g.loops[tid].Replying?
  }

  ghost function Do(g: State, a: Act): State
    requires Enabled(g, a)
  {
    match a
    case Append => g.(appended := g.appended + 1)
    case Rotate =>
      // The buffer is written out, the old segment is synced and closed, and a new one starts.
      g.(written := g.appended, base := g.appended,
         sealed := if g.sealed < g.base then g.sealed else g.appended, synced := 0)
    case Join(ch, tid) =>
      g.(waiters := g.waiters + [ch], joined := g.joined[ch := g.appended], running := true,
         loops := if g.running then g.loops else g.loops[tid := Top])
    case Take(tid) =>
      if g.waiters == [] then g.(running := false, loops := g.loops - {tid})
      else g.(waiters := [], loops := g.loops[tid := Syncing(g.waiters)])
    case Write(tid) => g.(written := g.appended, syncs := g.syncs[tid := Wrote(g.appended)])
    case Begin(tid) =>
      var upTo: nat := if g.base <= g.written then g.written - g.base else 0;
      g.(syncs := g.syncs[tid := Flushing(g.syncs[tid].target, upTo)])
    case End(tid) =>
      g.(synced := Max(g.synced, g.syncs[tid].upTo), syncs := g.syncs[tid := Synced(g.syncs[tid].target)])
    case Fail(tid) => g.(broken := true, syncs := g.syncs[tid := Failed])
    case Return(tid) =>
      var g' := g.(syncs := g.syncs - {tid});
      if tid in g.loops then g'.(loops := g.loops[tid := Replying(g.loops[tid].batch, g.syncs[tid].Synced?)]) else g'
    case Reply(tid) =>
      var pc := g.loops[tid];
      if pc.batch == [] then g.(loops := g.loops[tid := Top])
      else g.(replied := g.replied[pc.batch[0] := pc.ok], loops := g.loops[tid := Replying(pc.batch[1..], pc.ok)])
  }

  // ------------------------------------------------------------ invariant ---

  ghost predicate LogInv(g: State) {
    g.sealed == g.base && g.base + g.synced <= g.written <= g.appended
  }

  ghost predicate SyncOk(g: State, pc: SyncPc) {
    match pc
    case Wrote(x) => x <= g.written
    case Flushing(x, upTo) => x <= g.base + upTo <= g.written
    case Synced(x) => x <= Durable(g)
    case Failed => g.broken
  }

  ghost predicate SyncInv(g: State) {
    forall t :: t in g.syncs ==> SyncOk(g, g.syncs[t])
  }

  /** At most one loop runs, there is one exactly when `running` says so, and waiters never go without one. */
  ghost predicate LoopInv(g: State) {
    && (g.running <==> g.loops != map[])
    && (forall t, u :: t in g.loops && u in g.loops ==> t == u)
    && (g.waiters != [] ==> g.running)
    && (forall t :: t in g.loops && t in g.syncs ==> g.loops[t].Syncing?)
  }

  function Batch(pc: LoopPc): seq<Ch> {
    if pc.Top? then [] else pc.batch
  }

  ghost predicate Distinct(p: seq<Ch>) {
    forall i, j :: 0 <= i < j < |p| ==> p[i] != p[j]
  }

  /** Every commit call is either still owed its one reply, and then appears once in p, or has had it. */
  ghost predicate Owed(joined: map<Ch, nat>, replied: map<Ch, bool>, p: seq<Ch>) {
    && Distinct(p)
    && (forall c :: c in joined <==> c in p || c in replied)
    && (forall c :: c in p ==> c !in replied)
  }

  ghost predicate OwedInv(g: State) {
    && (g.loops == map[] ==> Owed(g.joined, g.replied, g.waiters))
    && (forall t :: t in g.loops ==> Owed(g.joined, g.replied, Batch(g.loops[t]) + g.waiters))
  }

  ghost predicate Covered(g: State, cs: seq<Ch>, n: nat) {
    forall c :: c in cs && c in g.joined ==> g.joined[c] <= n
  }

  ghost predicate TargetCovers(g: State, batch: seq<Ch>, pc: SyncPc) {
    pc.Failed? || Covered(g, batch, pc.target)
  }

  ghost predicate PromiseInv(g: State) {
    && (forall c :: c in g.joined ==> g.joined[c] <= g.appended)
    && (forall c :: c in g.replied && g.replied[c] && c in g.joined ==> g.joined[c] <= Durable(g))
    && (forall t :: t in g.loops && g.loops[t].Syncing? && t in g.syncs ==>
      TargetCovers(g, g.loops[t].batch, g.syncs[t]))
    && (forall t :: t in g.loops && g.loops[t].Replying? && g.loops[t].ok ==> Covered(g, g.loops[t].batch, Durable(g)))
  }

  /** Until something fails, every batch whose flush is over is being told that it succeeded. */
  ghost predicate AnswerInv(g: State) {
    !g.broken ==> forall t :: t in g.loops && g.loops[t].Replying? ==> g.loops[t].ok
  }

  ghost predicate Inv(g: State) {
    LogInv(g) && SyncInv(g) && LoopInv(g) && OwedInv(g) && PromiseInv(g) && AnswerInv(g)
  }

  lemma DurableOnlyGrows(g: State, a: Act)
    requires LogInv(g) && SyncInv(g) && Enabled(g, a)
    ensures LogInv(Do(g, a)) && Durable(g) <= Durable(Do(g, a))
    ensures g.written <= Do(g, a).written
  {
    if a.End? {
      assert SyncOk(g, g.syncs[a.tid]);
    }
  }

  /** A Sync in progress stays covered while files and stable storage grow and its active segment stays active. */
  lemma SyncOkGrows(g: State, g': State, pc: SyncPc)
    requires SyncOk(g, pc) && g.written <= g'.written && Durable(g) <= Durable(g') && (g.broken ==> g'.broken)
    requires pc.Flushing? ==> g.base == g'.base
    ensures SyncOk(g', pc)
  {
  }

  lemma OwnSyncStep(g: State, a: Act)
    requires LogInv(g) && Enabled(g, a) && (a.Write? || a.Begin? || a.End? || a.Fail?)
    requires a.tid in g.syncs ==> SyncOk(g, g.syncs[a.tid])
    ensures a.tid in Do(g, a).syncs && SyncOk(Do(g, a), Do(g, a).syncs[a.tid])
  {
  }

  /** A step changes where at most its own thread stands; rotation waits for every flush. */
  lemma OtherSyncs(g: State, a: Act, t: Tid)
    requires Enabled(g, a) && t in Do(g, a).syncs && !((a.Write? || a.Begin? || a.End? || a.Fail?) && a.tid == t)
    ensures t in g.syncs && Do(g, a).syncs[t] == g.syncs[t] && (g.broken ==> Do(g, a).broken)
    ensures g.syncs[t].Flushing? ==> Do(g, a).base == g.base
  {
    if a.Rotate? {
      assert !Flushes(g, t);
    }
  }

  lemma SyncStepAt(g: State, a: Act, t: Tid)
    requires LogInv(g) && SyncInv(g) && Enabled(g, a) && t in Do(g, a).syncs
    ensures SyncOk(Do(g, a), Do(g, a).syncs[t])
  {
    DurableOnlyGrows(g, a);
    hide Do, Enabled, Durable, SyncOk, LogInv;
    if (a.Write? || a.Begin? || a.End? || a.Fail?) && a.tid == t {
      OwnSyncStep(g, a);
    } else {
      OtherSyncs(g, a, t);
      SyncOkGrows(g, Do(g, a), g.syncs[t]);
    }
  }

  lemma SyncStep(g: State, a: Act)
    requires LogInv(g) && SyncInv(g) && Enabled(g, a)
    ensures SyncInv(Do(g, a))
  {
    hide Do, Enabled;
    forall t | t in Do(g, a).syncs
      ensures SyncOk(Do(g, a), Do(g, a).syncs[t])
    {
      SyncStepAt(g, a, t);
    }
  }

  lemma LoopStep(g: State, a: Act)
    requires LoopInv(g) && Enabled(g, a)
    ensures LoopInv(Do(g, a))
  {
    var g' := Do(g, a);
    if a.Take? && g.waiters == [] {
      assert g'.loops == map[];
    } else if a.Join? && !g.running {
      assert a.tid in g'.loops;
    } else if a.Take? || a.Reply? || (a.Return? && a.tid in g.loops) {
      assert a.tid in g'.loops;
    }
  }

  lemma OweOneMore(joined: map<Ch, nat>, replied: map<Ch, bool>, p: seq<Ch>, ch: Ch, n: nat)
    requires Owed(joined, replied, p) && ch !in joined
    ensures Owed(joined[ch := n], replied, p + [ch])
  {
    assert ch !in p;
  }

  lemma PayOne(joined: map<Ch, nat>, replied: map<Ch, bool>, p: seq<Ch>, ok: bool)
    requires Owed(joined, replied, p) && p != []
    ensures Owed(joined, replied[p[0] := ok], p[1..])
  {
    assert p == [p[0]] + p[1..];
  }

  lemma OwedJoin(g: State, ch: Ch, tid: Tid)
    requires LoopInv(g) && OwedInv(g) && Enabled(g, Join(ch, tid))
    ensures OwedInv(Do(g, Join(ch, tid)))
  {
    hide Owed;
    var g' := Do(g, Join(ch, tid));
    if g.loops == map[] {
      OweOneMore(g.joined, g.replied, g.waiters, ch, g.appended);
      assert Batch(Top) + g'.waiters == g'.waiters;
    } else {
      var t :| t in g.loops;
      OweOneMore(g.joined, g.replied, Batch(g.loops[t]) + g.waiters, ch, g.appended);
      assert Batch(g'.loops[t]) + g'.waiters == Batch(g.loops[t]) + g.waiters + [ch];
    }
  }

  lemma OwedTake(g: State, t: Tid)
    requires LoopInv(g) && OwedInv(g) && Enabled(g, Take(t))
    ensures OwedInv(Do(g, Take(t)))
  {
    hide Owed;
    var g' := Do(g, Take(t));
    assert Batch(g.loops[t]) + g.waiters == g.waiters;
    if t in g'.loops {
      assert Batch(g'.loops[t]) + g'.waiters == g.waiters;
    }
  }

  lemma OwedReply(g: State, t: Tid)
    requires LoopInv(g) && OwedInv(g) && Enabled(g, Reply(t))
    ensures OwedInv(Do(g, Reply(t)))
  {
    hide Owed;
    var g' := Do(g, Reply(t));
    var pc := g.loops[t];
    var p := Batch(pc) + g.waiters;
    if pc.batch == [] {
      assert Batch(g'.loops[t]) + g'.waiters == p;
    } else {
      PayOne(g.joined, g.replied, p, pc.ok);
      assert Batch(g'.loops[t]) + g'.waiters == p[1..];
    }
  }

  lemma OwedStep(g: State, a: Act)
    requires LoopInv(g) && OwedInv(g) && Enabled(g, a)
    ensures OwedInv(Do(g, a))
  {
    hide Owed;
    match a
    case Join(ch, tid) => OwedJoin(g, ch, tid);
    case Take(tid) => OwedTake(g, tid);
    case Reply(tid) => OwedReply(g, tid);
    case Return(tid) =>
      if tid in g.loops {
        assert Batch(Do(g, a).loops[tid]) == Batch(g.loops[tid]);
      }
    case _ =>
  }

  lemma PromiseJoin(g: State, ch: Ch, tid: Tid)
    requires Inv(g) && Enabled(g, Join(ch, tid))
    ensures PromiseInv(Do(g, Join(ch, tid)))
  {
    forall t | t in g.loops
      ensures ch !in Batch(g.loops[t])
    {
      assert Owed(g.joined, g.replied, Batch(g.loops[t]) + g.waiters);
      assert ch !in Batch(g.loops[t]) + g.waiters;
    }
  }

  lemma PromiseTake(g: State, t: Tid)
    requires Inv(g) && Enabled(g, Take(t))
    ensures PromiseInv(Do(g, Take(t)))
  {
    hide OwedInv, SyncInv;
  }

  lemma PromiseReply(g: State, t: Tid)
    requires Inv(g) && Enabled(g, Reply(t))
    ensures PromiseInv(Do(g, Reply(t)))
  {
    hide OwedInv, SyncInv;
    var batch := g.loops[t].batch;
    if batch != [] {
      assert batch[0] in batch && forall c :: c in batch[1..] ==> c in batch;
    }
  }

  lemma PromiseReturn(g: State, t: Tid)
    requires Inv(g) && Enabled(g, Return(t))
    ensures PromiseInv(Do(g, Return(t)))
  {
    hide OwedInv;
    assert SyncOk(g, g.syncs[t]);
    if t in g.loops {
      assert TargetCovers(g, g.loops[t].batch, g.syncs[t]);
    }
  }

  lemma PromiseFlush(g: State, a: Act)
    requires Inv(g) && Enabled(g, a) && (a.Write? || a.Begin? || a.End? || a.Fail?)
    ensures PromiseInv(Do(g, a))
  {
    hide OwedInv;
    DurableOnlyGrows(g, a);
  }

  /** Nothing a step does takes a promise back: lengths recorded at Join stay, and stable storage only grows. */
  lemma PromiseStep(g: State, a: Act)
    requires Inv(g) && Enabled(g, a)
    ensures PromiseInv(Do(g, a))
  {
    DurableOnlyGrows(g, a);
    match a
    case Join(ch, tid) => PromiseJoin(g, ch, tid);
    case Append =>
    case Rotate =>
    case Take(tid) => PromiseTake(g, tid);
    case Reply(tid) => PromiseReply(g, tid);
    case Return(tid) => PromiseReturn(g, tid);
    case _ => PromiseFlush(g, a);
  }

  lemma StepKeepsInv(g: State, a: Act)
    requires Inv(g) && Enabled(g, a)
    ensures Inv(Do(g, a))
  {
    DurableOnlyGrows(g, a);
    SyncStep(g, a);
    LoopStep(g, a);
    OwedStep(g, a);
    PromiseStep(g, a);
    AnswerStep(g, a);
  }

  lemma AnswerStep(g: State, a: Act)
    requires Inv(g) && Enabled(g, a)
    ensures AnswerInv(Do(g, a))
  {
    hide OwedInv, PromiseInv, LoopInv, LogInv;
    if a.Return? {
      assert SyncOk(g, g.syncs[a.tid]);
    }
  }

  /** A batch is told exactly whether its own flush succeeded, whatever became of other threads' flushes. */
  lemma ReplyIsOutcome(g: State, t: Tid)
    requires Inv(g) && Enabled(g, Return(t)) && t in g.loops
    ensures Do(g, Return(t)).loops[t].Replying? && Do(g, Return(t)).loops[t].batch == g.loops[t].batch
    ensures g.syncs[t] == Failed ==> !Do(g, Return(t)).loops[t].ok
    ensures g.syncs[t] != Failed ==> Do(g, Return(t)).loops[t].ok && Covered(g, g.loops[t].batch, Durable(g))
  {
    assert SyncOk(g, g.syncs[t]) && TargetCovers(g, g.loops[t].batch, g.syncs[t]);
  }

  /** The reply passes on what the batch is told, to its first caller. */
  lemma ReplyPassesOn(g: State, t: Tid)
    requires Enabled(g, Reply(t)) && g.loops[t].batch != []
    ensures Do(g, Reply(t)).replied == g.replied[g.loops[t].batch[0] := g.loops[t].ok]
  {
  }

  /** A failure is never forgotten, and until there is one nobody is told of one. */
  lemma UnbrokenAnswers(g: State, a: Act, c: Ch)
    requires Inv(g) && Enabled(g, a) && !Do(g, a).broken
    ensures !g.broken
    ensures c in Do(g, a).replied && c !in g.replied ==> Do(g, a).replied[c]
  {
    hide OwedInv, PromiseInv, LoopInv, SyncInv, LogInv;
  }

  // ----------------------------------------------------------------- runs ---

  ghost predicate Run(g: State, acts: seq<Act>, g': State)
    decreases |acts|
  {
    if acts == [] then g == g' else Enabled(g, acts[0]) && Run(Do(g, acts[0]), acts[1..], g')
  }

  lemma RebootInv(base: nat, stable: nat, kept: nat)
    requires base <= stable <= kept
    ensures Inv(Reboot(base, stable, kept)) && Durable(Reboot(base, stable, kept)) == stable
  {
  }

  lemma {:induction false} RunKeepsInv(g: State, acts: seq<Act>, g': State)
    requires Inv(g) && Run(g, acts, g')
    ensures Inv(g') && Durable(g) <= Durable(g')
    decreases |acts|
  {
    hide Inv;
    if acts != [] {
      StepKeepsInv(g, acts[0]);
      DurableGrows(g, acts[0]);
      RunKeepsInv(Do(g, acts[0]), acts[1..], g');
    }
  }

  lemma DurableGrows(g: State, a: Act)
    requires Inv(g) && Enabled(g, a)
    ensures Durable(g) <= Durable(Do(g, a))
  {
    DurableOnlyGrows(g, a);
  }

  /** What a commit call found on entry, and the reply it was sent, are never rewritten. */
  lemma {:induction false} RunKeepsHistory(g: State, acts: seq<Act>, g': State, c: Ch)
    requires Inv(g) && Run(g, acts, g') && c in g.joined
    ensures c in g'.joined && g'.joined[c] == g.joined[c]
    ensures c in g.replied ==> c in g'.replied && g'.replied[c] == g.replied[c]
    decreases |acts|
  {
    if acts != [] {
      hide Inv;
      OneReplyEach(g, acts[0], c);
      StepKeepsInv(g, acts[0]);
      RunKeepsHistory(Do(g, acts[0]), acts[1..], g', c);
    }
  }

  /** No step replies to a call that has had its reply, or forgets what the call found on entry. */
  lemma OneReplyEach(g: State, a: Act, c: Ch)
    requires Inv(g) && Enabled(g, a) && c in g.joined
    ensures c in Do(g, a).joined && Do(g, a).joined[c] == g.joined[c]
    ensures c in g.replied ==> c in Do(g, a).replied && Do(g, a).replied[c] == g.replied[c]
  {
    if a.Reply? {
      var batch := g.loops[a.tid].batch;
      assert Owed(g.joined, g.replied, batch + g.waiters);
      if batch != [] {
        assert batch[0] in batch + g.waiters;
      }
    }
  }

  /** Over every run without a failed write or flush, every caller that is answered is told of success. */
  lemma {:induction false} UnbrokenRunAnswersYes(g: State, acts: seq<Act>, g': State)
    requires Inv(g) && Run(g, acts, g') && !g'.broken && forall c :: c in g.replied ==> g.replied[c]
    ensures !g.broken && forall c :: c in g'.replied ==> g'.replied[c]
    decreases |acts|
  {
    hide Inv, Enabled, Do;
    if acts != [] {
      var g1 := Do(g, acts[0]);
      StepKeepsInv(g, acts[0]);
      NeverMended(g1, acts[1..], g');
      forall c | c in g1.replied
        ensures g1.replied[c]
      {
        UnbrokenAnswers(g, acts[0], c);
        if c in g.replied {
          RepliedIsJoined(g, c);
          OneReplyEach(g, acts[0], c);
        }
      }
      UnbrokenRunAnswersYes(g1, acts[1..], g');
      UnbrokenAnswers(g, acts[0], 0);
    }
  }

  lemma {:induction false} NeverMended(g: State, acts: seq<Act>, g': State)
    requires Inv(g) && Run(g, acts, g') && !g'.broken
    ensures !g.broken
    decreases |acts|
  {
    hide Inv, Enabled, Do;
    if acts != [] {
      StepKeepsInv(g, acts[0]);
      NeverMended(Do(g, acts[0]), acts[1..], g');
      UnbrokenAnswers(g, acts[0], 0);
    }
  }

  lemma RepliedIsJoined(g: State, c: Ch)
    requires Inv(g) && c in g.replied
    ensures c in g.joined
  {
    hide SyncInv, PromiseInv, AnswerInv, LogInv;
    if g.loops == map[] {
      assert Owed(g.joined, g.replied, g.waiters);
    } else {
      var t :| t in g.loops;
      assert Owed(g.joined, g.replied, Batch(g.loops[t]) + g.waiters);
    }
  }

  /** A nil return from commit means every record appended before the call is on stable storage: in any interleaving,
      with any rotations and any other flushes in between. */
  lemma CommitIsSound(g: State, ch: Ch, tid: Tid, acts: seq<Act>, g': State)
    requires Inv(g) && Enabled(g, Join(ch, tid)) && Run(Do(g, Join(ch, tid)), acts, g')
    ensures ch in g'.replied && g'.replied[ch] ==> g.appended <= Durable(g')
  {
    var g1 := Do(g, Join(ch, tid));
    StepKeepsInv(g, Join(ch, tid));
    RunKeepsInv(g1, acts, g');
    RunKeepsHistory(g1, acts, g', ch);
  }

  /** A successful reply is only ever sent once everything its caller had found appended is on stable storage. */
  lemma ReplyIsEarned(g: State, t: Tid)
    requires Inv(g) && t in g.loops && g.loops[t].Replying? && g.loops[t].batch != []
    ensures var ch := g.loops[t].batch[0];
            && ch in g.joined && ch !in g.replied
            && (g.loops[t].ok ==> g.joined[ch] <= Durable(g))
  {
    var batch := g.loops[t].batch;
    assert Owed(g.joined, g.replied, batch + g.waiters);
    assert batch[0] in batch + g.waiters;
    assert batch[0] in batch;
  }

  /** The same for a caller of Sync itself, who has no waiter list: what it targeted is stable when it returns. */
  lemma SyncIsSound(g: State, acts: seq<Act>, g': State, t: Tid)
    requires Inv(g) && Run(g, acts, g') && t in g'.syncs && g'.syncs[t].Synced?
    ensures g'.syncs[t].target <= Durable(g')
  {
    RunKeepsInv(g, acts, g');
    assert SyncOk(g', g'.syncs[t]);
  }

  /** The step the flush loop takes next, left to itself. */
  ghost function LoopAct(g: State, t: Tid): Act
    requires t in g.loops
  {
    match g.loops[t]
    case Top => Take(t)
    case Replying(_, _) => Reply(t)
    case Syncing(_) =>
      if t in g.syncs && (g.syncs[t].Synced? || g.syncs[t].Failed?) then Return(t)
      else if g.broken then Fail(t)
      else if t !in g.syncs then Write(t)
      else if g.syncs[t].Wrote? then Begin(t) else End(t)
  }

  ghost function Rank(g: State, t: Tid): nat {
    if t !in g.syncs then 4 else if g.syncs[t].Wrote? then 3 else if g.syncs[t].Flushing? then 2 else 1
  }

  ghost function Work(g: State, t: Tid): nat {
    8 * |g.waiters| +
    if t !in g.loops then 0 else
    match g.loops[t]
    case Top => 1
    case Syncing(batch) => |batch| + 3 + Rank(g, t)
    case Replying(batch, _) => |batch| + 2
  }

  /** The loop is never stuck, and every step it takes leaves less for it to do. */
  lemma LoopProgresses(g: State, t: Tid)
    requires Inv(g) && t in g.loops
    ensures Enabled(g, LoopAct(g, t)) && Work(Do(g, LoopAct(g, t)), t) < Work(g, t)
    ensures t in Do(g, LoopAct(g, t)).loops || Do(g, LoopAct(g, t)).loops == map[]
    ensures Do(g, LoopAct(g, t)).joined == g.joined
  {
    hide OwedInv, PromiseInv, SyncInv;
  }

  /** Left to itself the loop fails nothing, and replies as things stand. */
  lemma LoopKeepsFaith(g: State, t: Tid, c: Ch)
    requires Inv(g) && t in g.loops && Enabled(g, LoopAct(g, t)) && !g.broken
    ensures !Do(g, LoopAct(g, t)).broken
    ensures c in Do(g, LoopAct(g, t)).replied && c !in g.replied ==> Do(g, LoopAct(g, t)).replied[c]
  {
    hide OwedInv, PromiseInv, SyncInv, LogInv;
  }

  /** No waiter is lost: from any state the loop alone replies to every call and stops, even after a failure. If
      nothing has failed, everybody who was still waiting is told of success. */
  lemma {:induction false} LoopDrains(g: State, t: Tid) returns (acts: seq<Act>, g': State)
    requires Inv(g) && t in g.loops
    ensures Run(g, acts, g') && Inv(g') && g'.loops == map[] && !g'.running
    ensures g'.joined == g.joined && g'.replied.Keys == g.joined.Keys
    ensures !g.broken ==> !g'.broken && forall c :: c in g'.replied && c !in g.replied ==> g'.replied[c]
    ensures forall c :: c in g.replied ==> c in g'.replied && g'.replied[c] == g.replied[c]
    decreases Work(g, t)
  {
    hide Inv, Enabled, Do;
    var a := LoopAct(g, t);
    LoopProgresses(g, t);
    StepKeepsInv(g, a);
    var g1 := Do(g, a);
    forall c | c in g.replied
      ensures c in g1.replied && g1.replied[c] == g.replied[c]
    {
      RepliedIsJoined(g, c);
      OneReplyEach(g, a, c);
    }
    if !g.broken {
      LoopKeepsFaith(g, t, 0);
      forall c | c in g1.replied && c !in g.replied
        ensures g1.replied[c]
      {
        LoopKeepsFaith(g, t, c);
      }
    }
    if t in g1.loops {
      var rest;
      rest, g' := LoopDrains(g1, t);
      acts := [a] + rest;
      assert acts[1..] == rest;
    } else {
      acts, g' := [a], g1;
      AllPaid(g1);
    }
  }

  lemma AllPaid(g: State)
    requires Inv(g) && g.loops == map[]
    ensures !g.running && g.replied.Keys == g.joined.Keys
  {
    assert Owed(g.joined, g.replied, g.waiters);
    assert forall c :: c in g.joined <==> c in g.replied;
  }

  // ------------------------------------------------------------ the object ---

  /** The committer's own fields, and its two critical sections. Between them threads wait or flush. */
  class Committer {
    var waiters: seq<Ch>
    var running: bool

    constructor ()
      ensures Shows(Init())
    {
      waiters, running := [], false;
    }

    /** Whether this object is the committer of a protocol state. */
    ghost predicate Shows(g: State)
      reads this
    {
      waiters == g.waiters && running == g.running
    }

    /** commit joins the waiter list and starts a loop if none is running. */
    method JoinWaiters(ch: Ch, ghost g: State, ghost tid: Tid) returns (start: bool)
      requires Shows(g) && Enabled(g, Join(ch, tid))
      modifies this
      ensures Shows(Do(g, Join(ch, tid)))
      ensures start <==> tid in Do(g, Join(ch, tid)).loops
    {
      waiters := waiters + [ch];
      start := !running;
      if !running {
        running := true;
      }
    }

    /** The loop takes every waiter at once, or stops when there is none. */
    method TakeBatch(ghost g: State, ghost tid: Tid) returns (batch: seq<Ch>, stop: bool)
      requires Shows(g) && Enabled(g, Take(tid))
      modifies this
      ensures Shows(Do(g, Take(tid)))
      ensures stop <==> tid !in Do(g, Take(tid)).loops
      ensures !stop ==> Do(g, Take(tid)).loops[tid] == Syncing(batch)
    {
      batch := waiters;
      waiters := [];
      stop := |batch| == 0;
      if stop {
        running := false;
      }
    }
  }
}
