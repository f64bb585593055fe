/** The layers together: a log object over bytes holds the records of the whole-broker machine, and keeps holding them
    through appends, deletion of old segments, and a crash that cuts the active file anywhere past its durable part. */
module EndToEnd {
  import opened Framing
  import opened Wal
  import opened Jobs
  import opened Recovery
  import opened System
  import opened Core
  import opened Runs
  import D = Durability
  import B = Backoff
  import S = Store
  import SR = StoreRefinement
  import L = LogRefinement
  import G = GroupCommit

  /** The log object's retained records are the encodings of the machine's, under the same LSNs. */
  ghost predicate Holds(w: Log, s: Broker, enc: Event -> seq<Byte>)
    reads w
  {
    && L.Counts(w, s.gc) && |s.log| == s.gc.appended && 0 < |w.bases| && w.bases[0] == s.first
    && L.Encodes(s.first, w.recs, s.log, enc)
  }

  lemma OneMoreEncoded(first: nat, recs: seq<Payload>, log: seq<Event>, e: Event, enc: Event -> seq<Byte>)
    requires L.Encodes(first, recs, log, enc) && Appendable(enc(e))
    ensures L.Encodes(first, recs + [enc(e)], log + [e], enc)
  {
  }

  /** The steps that log an event: an operation's record, or a token reservation. */
  ghost predicate Logs(s: Broker, a: Act, e: Event) {
    match a
    case Record(logged, _) => e == logged
    case Reserve(block, _) => 0 < block && e == EpochReserve(s.nextEpoch + block - 1)
    case _ => false
  }

  /** The machine once a full segment has been sealed, if it has to be. */
  ghost function Sealed(s: Broker, full: bool): Broker
    requires full ==> G.Enabled(s.gc, G.Rotate)
  {
    if full then s.(gc := G.Do(s.gc, G.Rotate)) else s
  }

  lemma LogsOne(s: Broker, a: Act, e: Event)
    requires Logs(s, a, e) && Enabled(s, a, true)
    ensures s.lock.Unlocked? && Do(s, a, true).log == s.log + [e] && Do(s, a, true).first == s.first
    ensures G.Enabled(s.gc, G.Append) && Do(s, a, true).gc == G.Do(s.gc, G.Append)
    ensures forall g :: G.Enabled(s.gc, G.Rotate) && g == G.Do(s.gc, G.Rotate) ==>
              Enabled(s.(gc := g), a, true) && Logs(s.(gc := g), a, e)
  {
    hide Legit, Effect;
  }

  /** Appending an event's encoding is the machine's Record or Reserve, after its Rotate when the segment is full. The
      LSN returned is the event's position in the machine's log. An encoding too large to frame is refused, and nothing
      happens. */
  method Append(w: Log, e: Event, payload: seq<Byte>, ghost a: Act, ghost enc: Event -> seq<Byte>, ghost s: Broker)
    returns (r: Appended, ghost s': Broker)
    requires Holds(w, s, enc) && payload == enc(e) && Logs(s, a, e) && Enabled(s, a, true)
    requires Appendable(payload) && L.Full(w, payload) ==> forall t :: !G.Flushes(s.gc, t)
    modifies w
    ensures Holds(w, s', enc) && (r.Lsn? <==> Appendable(payload)) && (r.Refused? ==> s' == s)
    ensures r.Lsn? ==> r.lsn == |s'.log| && s'.log == s.log + [e]
    ensures r.Lsn? && old(L.Full(w, payload)) ==> G.Enabled(s.gc, G.Rotate)
    ensures r.Lsn? ==> var s1 := Sealed(s, old(L.Full(w, payload))); Enabled(s1, a, true) && s' == Do(s1, a, true)
    ensures Run(s, AppendActs(a, Appendable(payload), old(L.Full(w, payload))), true, s')
    ensures r.Lsn? ==>
      w.activeSize == (if old(L.Full(w, payload)) then 0 else old(w.activeSize)) + HEADER_SIZE + |payload|
  {
    hide Run, Do, Enabled, L.Encodes, L.Counts, G.Do, G.Enabled;
    ghost var full := L.Full(w, payload);
    ghost var acts, g;
    if !Appendable(payload) {
      r, acts, g := L.Append(w, payload, s.gc);
      s' := s;
      NoSteps(s, true);
      return;
    }
    OneMoreEncoded(s.first, w.recs, s.log, e, enc);
    LogsOne(s, a, e);
    ghost var s1 := RotatedIf(w, s, full);
    LogsOne(s1, a, e);
    r, acts, g := L.Append(w, payload, s.gc);
    s' := Do(s1, a, true);
    RunOne(s1, a, true);
    RunConcat(s, if full then [Inner(G.Rotate)] else [], s1, [a], true, s');
    AppendActsEnd(s.gc, full, acts, g);
    OneMoreAppended(s1.gc);
    RotationAppendsNothing(s.gc);
  }

  function AppendActs(a: Act, appendable: bool, full: bool): seq<Act> {
    if !appendable then [] else (if full then [Inner(G.Rotate)] else []) + [a]
  }

  lemma OneMoreAppended(g: G.State)
    requires G.Enabled(g, G.Append)
    ensures G.Do(g, G.Append).appended == g.appended + 1
  {
  }

  lemma RotationAppendsNothing(g: G.State)
    ensures G.Enabled(g, G.Rotate) ==> G.Do(g, G.Rotate).appended == g.appended
  {
  }

  /** The machine once a full segment has been sealed. */
  lemma RotatedIf(w: Log, s: Broker, full: bool) returns (s1: Broker)
    requires L.Counts(w, s.gc) && s.lock.Unlocked?
    requires full ==> w.activeSize > 0 && forall t :: !G.Flushes(s.gc, t)
    ensures Run(s, if full then [Inner(G.Rotate)] else [], true, s1)
    ensures full ==> G.Enabled(s.gc, G.Rotate)
    ensures s1 == Sealed(s, full)
  {
    if full {
      L.Positions(w);
      InnerStep(s, G.Rotate, true);
      RunOne(s, Inner(G.Rotate), true);
      s1 := Do(s, Inner(G.Rotate), true);
    } else {
      s1 := s;
      NoSteps(s, true);
    }
  }

  lemma AppendActsEnd(g: G.State, full: bool, acts: seq<G.Act>, g': G.State)
    requires acts == (if full then [G.Rotate, G.Append] else [G.Append]) && G.Run(g, acts, g')
    ensures full ==> G.Enabled(g, G.Rotate)
    ensures g' == G.Do(if full then G.Do(g, G.Rotate) else g, G.Append)
  {
    if full {
      assert acts[1..] == [G.Append] && acts[1..][1..] == [];
      var g1 := G.Do(g, G.Rotate);
      assert G.Run(g1, acts[1..], g');
      assert G.Run(G.Do(g1, G.Append), acts[1..][1..], g');
    } else {
      assert acts[1..] == [];
    }
  }

  /** Deleting segments a visible snapshot covers is the machine's Truncate. A deletion cut short has deleted what one
      with a lower LSN would have. */
  method TruncateBefore(w: Log, lsn: nat, ghost enc: Event -> seq<Byte>, ghost s: Broker)
    requires Holds(w, s, enc) && CoreInv(s) && lsn <= s.snap.lsn + 1
    modifies w
    ensures 0 < |w.bases| && Enabled(s, Truncate(w.bases[0]), true) && w.activeSize == old(w.activeSize)
    ensures Holds(w, Do(s, Truncate(w.bases[0]), true), enc)
  {
    hide G.Inv, SnapInv, MemInv, CapInv, SoundLog, Tiles;
    L.Positions(w);
    L.TruncateBefore(w, lsn, s.gc);
    L.Positions(w);
  }

  // --------------------------------------------------------- every other step ---

  /** The three steps of a Sync. */
  datatype Part = Draining | Starting | Ending

  function SyncAct(t: G.Tid, part: Part): G.Act {
    match part
    case Draining => G.Write(t)
    case Starting => G.Begin(t)
    case Ending => G.End(t)
  }

  /** They are the machine's, whatever other threads are in the middle of. */
  method Flush(w: Log, t: G.Tid, part: Part, ghost enc: Event -> seq<Byte>, ghost s: Broker)
    requires Holds(w, s, enc) && CoreInv(s) && Enabled(s, Inner(SyncAct(t, part)), true)
    modifies w
    ensures Holds(w, Do(s, Inner(SyncAct(t, part)), true), enc) && w.activeSize == old(w.activeSize)
  {
    hide L.Encodes, Enabled, Do, CoreInv, InnerEnabled, G.Do, G.Enabled, L.Counts, Acknowledges;
    InnerStep(s, SyncAct(t, part), true);
    FlushIsInner(s, t, part);
    match part {
      case Draining => L.Write(w, s.gc, t);
      case Starting => L.Begin(w, s.gc, t);
      case Ending => L.End(w, s.gc, t);
    }
  }

  lemma FlushIsInner(s: Broker, t: G.Tid, part: Part)
    requires CoreInv(s) && InnerEnabled(s, SyncAct(t, part))
    ensures var b := SyncAct(t, part); G.Enabled(s.gc, b) && G.SyncInv(s.gc) && G.Do(s.gc, b).appended == s.gc.appended
  {
    hide SoundLog, SnapInv, MemInv, CapInv;
  }

  /** The steps that leave the log alone: replies, heartbeats, deduplicated submissions, tokens, and snapshots. */
  predicate Unlogged(a: Act) {
    match a
    case Inner(b) => b.Join? || b.Take? || b.Return? || b.Reply?
    case Record(_, _) => false
    case Reserve(_, _) => false
    case Truncate(_) => false
    case Crash(_, _, _) => false
    case _ => true
  }

  lemma Unseen(w: Log, s: Broker, a: Act, enc: Event -> seq<Byte>)
    requires Holds(w, s, enc) && Enabled(s, a, true) && Unlogged(a)
    ensures Holds(w, Do(s, a, true), enc)
  {
    UnloggedGc(s, a);
    hide Do, Enabled, L.Encodes;
  }

  /** The part of the committer that the log object shows. */
  ghost predicate SameLog(g: G.State, g': G.State) {
    && g'.appended == g.appended && g'.written == g.written && g'.base == g.base
    && g'.sealed == g.sealed && g'.synced == g.synced && g'.broken == g.broken
  }

  lemma CommitterStep(g: G.State, b: G.Act)
    requires G.Enabled(g, b) && (b.Join? || b.Take? || b.Return? || b.Reply?)
    ensures SameLog(g, G.Do(g, b))
  {
  }

  lemma UnloggedGc(s: Broker, a: Act)
    requires Enabled(s, a, true) && Unlogged(a)
    ensures var s' := Do(s, a, true);
            s'.log == s.log && s'.first == s.first && SameLog(s.gc, s'.gc)
  {
    if a.Inner? {
      InnerStep(s, a.a, true);
      CommitterStep(s.gc, a.a);
    } else if a.ReserveDone? {
      CommitterStep(s.gc, G.Return(s.lock.tid));
    }
    hide G.Do, G.Enabled, InnerEnabled, Legit, Effect, Complete, Acknowledges, Recover, SnapshotFits;
  }

  // ---------------------------------------------------------------------- runs ---

  /** What may be asked of the log: an event appended, a part of a thread's Sync, old segments deleted, or nothing. */
  datatype Op =
    | DoAppend(e: Event, ghost a: Act)
    | DoSync(t: G.Tid, part: Part)
    | DoDelete(lsn: nat)
    | DoNothing(ghost a: Act)

  ghost predicate Fills(size: nat, max: nat, p: seq<Byte>) {
    size > 0 && size + HEADER_SIZE + |p| > max
  }

  /** Whether the machine takes this step from s, and waits with a rotation for the flushes under way. size is what the
      active segment holds. */
  ghost predicate May(s: Broker, size: nat, max: nat, enc: Event -> seq<Byte>, op: Op) {
    match op
    case DoAppend(e, a) =>
      var full := Fills(size, max, enc(e));
      Appendable(enc(e)) && Logs(s, a, e) && Enabled(s, a, true) && (full ==> G.Enabled(s.gc, G.Rotate))
        && Enabled(Sealed(s, full), a, true)
    case DoSync(t, part) => Enabled(s, Inner(SyncAct(t, part)), true)
    case DoDelete(lsn) => lsn <= s.snap.lsn + 1
    case DoNothing(a) => Enabled(s, a, true) && Unlogged(a)
  }

  ghost function Next(s: Broker, size: nat, max: nat, enc: Event -> seq<Byte>, op: Op): Broker
    requires May(s, size, max, enc, op)
  {
    match op
    case DoAppend(e, a) => Do(Sealed(s, Fills(size, max, enc(e))), a, true)
    case DoSync(t, part) => Do(s, Inner(SyncAct(t, part)), true)
    case DoDelete(_) => s
    case DoNothing(a) => Do(s, a, true)
  }

  ghost function NextSize(size: nat, max: nat, enc: Event -> seq<Byte>, op: Op): nat {
    if op.DoAppend? then (if Fills(size, max, enc(op.e)) then 0 else size) + HEADER_SIZE + |enc(op.e)| else size
  }

  ghost predicate Possible(s: Broker, size: nat, max: nat, enc: Event -> seq<Byte>, ops: seq<Op>)
    decreases |ops|
  {
    ops == [] ||
    (May(s, size, max, enc, ops[0]) && Possible(Next(s, size, max, enc, ops[0]), NextSize(size, max, enc, ops[0]), max,
      enc, ops[1..]))
  }

  /** The same machine but for how many old segments are gone. */
  ghost predicate SameButFirst(s: Broker, t: Broker) {
    s == t.(first := s.first)
  }

  /** Nothing but deletion and recovery looks at that. */
  lemma FirstIsUnseen(s: Broker, t: Broker, a: Act)
    requires SameButFirst(s, t) && !a.Truncate? && !a.Crash?
    ensures Enabled(s, a, true) <==> Enabled(t, a, true)
    ensures Enabled(s, a, true) ==> SameButFirst(Do(s, a, true), Do(t, a, true))
  {
    hide G.Enabled, G.Do, Legit, Effect, Complete;
  }

  /** The log object after an operation holds a machine that is, but for deleted segments, where t goes from here. */
  ghost predicate Tracks(w: Log, s: Broker, t: Broker, size: nat, enc: Event -> seq<Byte>)
    reads w
  {
    Holds(w, s, enc) && SameButFirst(s, t) && w.activeSize == size
  }

  method PerformAppend(w: Log, e: Event, ghost a: Act, enc: Event -> seq<Byte>, ghost s: Broker, ghost t: Broker)
    returns (ghost acts: seq<Act>, ghost s': Broker)
    requires Tracks(w, s, t, w.activeSize, enc) && May(t, w.activeSize, w.maxSegmentSize, enc, DoAppend(e, a))
    modifies w
    ensures Run(s, acts, true, s')
    ensures Tracks(w, s', old(Next(t, w.activeSize, w.maxSegmentSize, enc, DoAppend(e, a))),
                    old(NextSize(w.activeSize, w.maxSegmentSize, enc, DoAppend(e, a))), enc)
  {
    hide Holds, Enabled, Do, Run, Logs;
    ghost var full := L.Full(w, enc(e));
    AppendIsUnseen(s, t, a, e, full);
    var r;
    r, s' := Append(w, e, enc(e), a, enc, s);
    acts := AppendActs(a, true, full);
  }

  method PerformSync(w: Log, tid: G.Tid, part: Part, ghost enc: Event -> seq<Byte>, ghost s: Broker, ghost t: Broker)
    returns (ghost acts: seq<Act>, ghost s': Broker)
    requires Tracks(w, s, t, w.activeSize, enc) && CoreInv(s) && Enabled(t, Inner(SyncAct(tid, part)), true)
    modifies w
    ensures Run(s, acts, true, s') && Tracks(w, s', Do(t, Inner(SyncAct(tid, part)), true), old(w.activeSize), enc)
  {
    hide Holds, Enabled, Do, Run, CoreInv;
    ghost var a := Inner(SyncAct(tid, part));
    FirstIsUnseen(s, t, a);
    RunOne(s, a, true);
    Flush(w, tid, part, enc, s);
    acts, s' := [a], Do(s, a, true);
  }

  method PerformDelete(w: Log, lsn: nat, ghost enc: Event -> seq<Byte>, ghost s: Broker, ghost t: Broker)
    returns (ghost acts: seq<Act>, ghost s': Broker)
    requires Tracks(w, s, t, w.activeSize, enc) && CoreInv(s) && lsn <= t.snap.lsn + 1
    modifies w
    ensures Run(s, acts, true, s') && Tracks(w, s', t, old(w.activeSize), enc)
  {
    hide Holds, Enabled, Do, Run, CoreInv;
    TruncateBefore(w, lsn, enc, s);
    RunOne(s, Truncate(w.bases[0]), true);
    TruncateIsFirst(s, w.bases[0]);
    acts, s' := [Truncate(w.bases[0])], Do(s, Truncate(w.bases[0]), true);
  }

  lemma PerformNothing(w: Log, a: Act, enc: Event -> seq<Byte>, s: Broker, t: Broker)
    returns (acts: seq<Act>, s': Broker)
    requires Tracks(w, s, t, w.activeSize, enc) && Enabled(t, a, true) && Unlogged(a)
    ensures Run(s, acts, true, s') && Tracks(w, s', Do(t, a, true), w.activeSize, enc)
  {
    UnloggedIsNeither(a);
    hide Holds, Enabled, Do, Run, Unlogged;
    FirstIsUnseen(s, t, a);
    RunOne(s, a, true);
    Unseen(w, s, a, enc);
    acts, s' := [a], Do(s, a, true);
  }

  /** One of them, on the log object. */
  method Perform(w: Log, op: Op, enc: Event -> seq<Byte>, ghost s: Broker, ghost t: Broker)
    returns (ghost acts: seq<Act>, ghost s': Broker)
    requires Tracks(w, s, t, w.activeSize, enc) && CoreInv(s) && May(t, w.activeSize, w.maxSegmentSize, enc, op)
    modifies w
    ensures Run(s, acts, true, s')
    ensures Tracks(w, s', old(Next(t, w.activeSize, w.maxSegmentSize, enc, op)),
      old(NextSize(w.activeSize, w.maxSegmentSize, enc, op)), enc)
  {
    hide Tracks, CoreInv, Enabled, Do, Run, Unlogged, Logs, Sealed, Fills;
    match op {
      case DoAppend(e, a) => acts, s' := PerformAppend(w, e, a, enc, s, t);
      case DoSync(tid, part) => acts, s' := PerformSync(w, tid, part, enc, s, t);
      case DoDelete(lsn) => acts, s' := PerformDelete(w, lsn, enc, s, t);
      case DoNothing(a) => acts, s' := PerformNothing(w, a, enc, s, t);
    }
  }

  lemma UnloggedIsNeither(a: Act)
    requires Unlogged(a)
    ensures !a.Truncate? && !a.Crash?
  {
  }

  lemma TruncateIsFirst(s: Broker, first: nat)
    requires Enabled(s, Truncate(first), true)
    ensures Do(s, Truncate(first), true) == s.(first := first)
  {
  }

  lemma AppendIsUnseen(s: Broker, t: Broker, a: Act, e: Event, full: bool)
    requires SameButFirst(s, t) && Logs(t, a, e) && Enabled(t, a, true)
    requires (full ==> G.Enabled(t.gc, G.Rotate)) && Enabled(Sealed(t, full), a, true)
    ensures Logs(s, a, e) && Enabled(s, a, true) && Enabled(Sealed(s, full), a, true)
    ensures SameButFirst(Do(Sealed(s, full), a, true), Do(Sealed(t, full), a, true))
    ensures full ==> forall u :: !G.Flushes(s.gc, u)
  {
    hide Enabled, Do, G.Do;
    FirstIsUnseen(s, t, a);
    FirstIsUnseen(Sealed(s, full), Sealed(t, full), a);
  }

  /** Over any sequence of such operations the log object goes on holding the machine's records, and what was done to
      it is a run of the machine. So what is proved of every run holds of the bytes. */
  method PerformAll(w: Log, ops: seq<Op>, enc: Event -> seq<Byte>, ghost s: Broker)
    returns (ghost acts: seq<Act>, ghost s': Broker)
    requires Holds(w, s, enc) && D.Inv(s) && Possible(s, w.activeSize, w.maxSegmentSize, enc, ops)
    modifies w
    ensures Holds(w, s', enc) && D.Inv(s') && Run(s, acts, true, s')
  {
    hide Holds, CoreInv, D.CallInv, May, Next, NextSize, Run, SameButFirst;
    acts, s' := [], s;
    ghost var t := s;
    NoSteps(s, true);
    FirstOfAll(s);
    assert ops[0..] == ops;
    for i := 0 to |ops|
      invariant Tracks(w, s', t, w.activeSize, enc) && D.Inv(s') && Run(s, acts, true, s')
      invariant Possible(t, w.activeSize, w.maxSegmentSize, enc, ops[i..])
    {
      assert ops[i..][0] == ops[i] && ops[i..][1..] == ops[i + 1..];
      ghost var t1 := Next(t, w.activeSize, w.maxSegmentSize, enc, ops[i]);
      ghost var more, s1;
      more, s1 := Perform(w, ops[i], enc, s', t);
      D.RunKeepsInv(s', more, s1);
      RunConcat(s, acts, s', more, true, s1);
      acts, s', t := acts + more, s1, t1;
    }
  }

  lemma FirstOfAll(s: Broker)
    ensures SameButFirst(s, s)
  {
  }

  // ------------------------------------------------------------------ restarts ---

  /** Decoding what a replay delivered. */
  method DecodeAll(out: seq<Numbered>, dec: seq<Byte> -> Event) returns (records: seq<Event>)
    ensures records == L.Decoded(out, dec)
  {
    records := [];
    for i := 0 to |out|
      invariant |records| == i && forall k :: 0 <= k < i ==> records[k] == dec(out[k].payload)
    {
      records := records + [dec(out[i].payload)];
    }
  }

  lemma CutEncodes(first: nat, recs: seq<Payload>, kept: seq<Payload>, log: seq<Event>, enc: Event -> seq<Byte>)
    requires L.Encodes(first, recs, log, enc) && kept <= recs
    ensures first - 1 + |kept| <= |log| && L.Encodes(first, kept, log[..first - 1 + |kept|], enc)
  {
  }

  /** Cutting what was meant for the active file anywhere past its durable bytes, reopening the log, replaying it from
      just past the newest visible snapshot and decoding gives the records recovery is stated over, for one Crash of
      the machine. */
  method ReadBack(w: Log, file: seq<Byte>, ghost enc: Event -> seq<Byte>, dec: seq<Byte> -> Event, lsn: nat,
      ghost s: Broker)
    returns (w': Log, records: seq<Event>, ghost kept: nat, ghost stable: nat)
    requires D.Inv(s) && Holds(w, s, enc) && lsn == s.snap.lsn && L.Decodes(s.log, enc, dec)
    requires file <= w.files[w.activeBase] + w.buf
      && |Encode(w.crc, w.recs[w.activeBase - w.bases[0]..w.durable])| <= |file|
    ensures forall now ::
      Enabled(s, Crash(kept, stable, now), true) && Holds(w', Do(s, Crash(kept, stable, now), true), enc)
    ensures kept <= |s.log| && 1 <= s.first && records == Suffix(s.snap, s.first, s.log[..kept])
  {
    hide Tiles, Encode, CoreInv, D.CallInv, L.Encodes, Enabled, Do, Suffix, SnapshotFits;
    w', stable, kept := L.Reopen(w, file, s.gc);
    L.Positions(w');
    CanCrash(s, kept, stable);
    CutEncodes(s.first, w.recs, w'.recs, s.log, enc);
    records := Reread(w', enc, dec, s.snap, lsn, s.log[..kept]);
    L.Positions(w');
    forall now
      ensures Holds(w', Do(s, Crash(kept, stable, now), true), enc)
    {
      HoldsAfterCrash(w', s, enc, kept, stable, now);
    }
  }

  /** Replaying a log object from just past a snapshot and decoding what it delivers. */
  method Reread(w: Log, ghost enc: Event -> seq<Byte>, dec: seq<Byte> -> Event, ghost snap: Snapshot, lsn: nat,
      ghost log: seq<Event>)
    returns (records: seq<Event>)
    requires w.Valid() && !w.closed && lsn == snap.lsn && L.Decodes(log, enc, dec)
    requires 0 < |w.bases| && 1 <= w.bases[0] && L.Encodes(w.bases[0], w.recs, log, enc)
    modifies w
    ensures w.Valid() && !w.closed && w.recs == old(w.recs) && w.bases == old(w.bases)
    ensures w.durable == old(w.durable) && w.nextLSN == old(w.nextLSN) && w.written == |w.recs|
    ensures records == Suffix(snap, w.bases[0], log)
  {
    hide Tiles, L.Encodes;
    var replayed, out := w.Replay(lsn + 1);
    records := DecodeAll(out, dec);
    L.ReplayIsSuffix(w.bases[0], w.recs, log, enc, dec, snap);
  }

  lemma HoldsAfterCrash(w: Log, s: Broker, enc: Event -> seq<Byte>, kept: nat, stable: nat, now: Time)
    requires Enabled(s, Crash(kept, stable, now), true) && L.Counts(w, G.Reboot(s.gc.base, stable, kept))
    requires 0 < |w.bases| && w.bases[0] == s.first && L.Encodes(s.first, w.recs, s.log[..kept], enc)
    ensures Holds(w, Do(s, Crash(kept, stable, now), true), enc)
  {
    hide Recover, SnapshotFits, L.Counts, L.Encodes;
  }

  /** From bytes to broker: whatever such a crash leaves, opening succeeds, is one Crash of the machine, and leaves the
      reopened log and the new store holding and showing the machine after it. */
  method CrashAndOpen(w: Log, file: seq<Byte>, ghost enc: Event -> seq<Byte>, dec: seq<Byte> -> Event, base: B.Int64,
      cap: B.Int64, block: nat,
                      listed: seq<Job>, ceiling: nat, before: seq<Event>, now: Time, ghost s: Broker)
    returns (w': Log, st: S.Store, ok: bool, ghost kept: nat, ghost stable: nat)
    requires D.Inv(s) && Holds(w, s, enc) && L.Decodes(s.log, enc, dec)
    requires file <= w.files[w.activeBase] + w.buf
      && |Encode(w.crc, w.recs[w.activeBase - w.bases[0]..w.durable])| <= |file|
    requires S.Lists(listed, s.snap.jobs) && ceiling == s.snap.ceiling && before == s.log[..s.snap.lsn]
    ensures ok && Enabled(s, Crash(kept, stable, now), true)
    ensures SR.Shows(st, Do(s, Crash(kept, stable, now), true))
    ensures Holds(w', Do(s, Crash(kept, stable, now), true), enc)
  {
    assert |before| == s.snap.lsn by { SnapshotIsLogged(s); }
    hide D.Inv, SR.Shows, S.Lists, Holds, Enabled, Do, Encode, Suffix;
    var records;
    w', records, kept, stable := ReadBack(w, file, enc, dec, |before|, s);
    st, ok := SR.Restart(base, cap, block, listed, ceiling, before, records, now, s, kept, stable);
  }

  lemma SnapshotIsLogged(s: Broker)
    requires D.Inv(s)
    ensures s.snap.lsn <= |s.log|
  {
  }

  lemma CanCrash(s: Broker, kept: nat, stable: nat)
    requires D.Inv(s) && G.Durable(s.gc) <= stable <= kept <= s.gc.appended
    ensures kept <= |s.log| && forall now :: Enabled(s, Crash(kept, stable, now), true)
  {
    hide SnapInv, MemInv, CapInv, D.CallInv;
    DurableWithinLog(s.gc);
  }

  // ------------------------------------------------------------------- codecs ---

  function Position(log: seq<Event>, e: Event): nat
    requires e in log
  {
    if log[0] == e then 0 else 1 + Position(log[1..], e)
  }

  lemma {:induction false} PositionIs(log: seq<Event>, e: Event)
    requires e in log
    ensures Position(log, e) < |log| && log[Position(log, e)] == e
  {
    if log[0] != e {
      PositionIs(log[1..], e);
    }
  }

  /** What is asked of encoding and decoding can be had for any log of up to sixty-seven million events. */
  lemma CodecExists(log: seq<Event>) returns (enc: Event -> seq<Byte>, dec: seq<Byte> -> Event)
    requires |log| <= MAX_RECORD_SIZE
    ensures L.Decodes(log, enc, dec) && forall e :: e in log ==> Appendable(enc(e))
  {
    var other := EpochReserve(0);
    enc := (e: Event) => if e in log then seq(Position(log, e) + 1, _ => 0) else [];
    dec := (b: seq<Byte>) => if 0 < |b| <= |log| then log[|b| - 1] else other;
    forall e | e in log
      ensures Appendable(enc(e)) && dec(enc(e)) == e
    {
      PositionIs(log, e);
    }
  }
}
