/** The byte-level log is the log the committer's protocol counts: what the object's methods do to files and buffer are
    the protocol's steps, and reopening after a crash is its Reboot. */
module LogRefinement {
  import opened Framing
  import opened Wal
  import J = Jobs
  import R = Recovery
  import G = GroupCommit

  /** Record counts and positions of the object, as the protocol has them. LSN n is the n-th record ever appended. */
  ghost predicate Counts(w: Log, g: G.State)
    reads w
  {
    && w.Valid() && !w.closed && G.LogInv(g) && !g.broken
    && g.appended == w.nextLSN - 1
    && g.base == w.activeBase - 1
    && g.written == w.bases[0] - 1 + w.written
    && G.Durable(g) == w.bases[0] - 1 + w.durable
  }

  lemma RunTwo(g: G.State, a: G.Act, b: G.Act)
    requires G.Enabled(g, a) && G.Enabled(G.Do(g, a), b)
    ensures G.Run(g, [a, b], G.Do(G.Do(g, a), b))
  {
    assert [a, b][1..] == [b] && [b][1..] == [];
    assert G.Run(G.Do(G.Do(g, a), b), [], G.Do(G.Do(g, a), b));
    assert G.Run(G.Do(g, a), [b], G.Do(G.Do(g, a), b));
  }

  lemma RunOne(g: G.State, a: G.Act)
    requires G.Enabled(g, a)
    ensures G.Run(g, [a], G.Do(g, a))
  {
    assert [a][1..] == [];
    assert G.Run(G.Do(g, a), [], G.Do(g, a));
  }

  /** Where the log's counters lie relative to each other. */
  lemma Positions(w: Log)
    requires w.Valid()
    ensures |w.bases| > 0 && 1 <= w.bases[0] <= w.activeBase && w.activeBase == w.bases[|w.bases| - 1]
    ensures w.activeBase - w.bases[0] <= w.durable <= w.written <= |w.recs| && w.nextLSN == w.bases[0] + |w.recs|
    ensures w.activeSize > 0 ==> w.activeBase < w.nextLSN
  {
    hide Encode;
    if w.activeSize > 0 {
      ActiveNonempty(w);
    }
  }

  /** The protocol's side of an append: with or without a rotation first. */
  lemma AppendActs(g: G.State, rotates: bool) returns (acts: seq<G.Act>, g': G.State)
    requires G.LogInv(g) && !g.broken && (rotates ==> g.base < g.appended && forall t :: !G.Flushes(g, t))
    ensures acts == (if rotates then [G.Rotate, G.Append] else [G.Append]) && G.Run(g, acts, g')
    ensures G.LogInv(g') && G.Durable(g') == if rotates then g.appended else G.Durable(g)
    ensures g' == if rotates
                  then g.(written := g.appended, base := g.appended, sealed := g.appended, synced := 0,
                    appended := g.appended + 1)
                  else g.(appended := g.appended + 1)
  {
    if rotates {
      acts, g' := [G.Rotate, G.Append], G.Do(G.Do(g, G.Rotate), G.Append);
      RunTwo(g, G.Rotate, G.Append);
    } else {
      acts, g' := [G.Append], G.Do(g, G.Append);
      RunOne(g, G.Append);
    }
  }

  ghost predicate Full(w: Log, payload: seq<Byte>)
    reads w
  {
    w.activeSize > 0 && w.activeSize + HEADER_SIZE + |payload| > w.maxSegmentSize
  }

  /** A full segment is sealed and synced before the record goes in, once no flush of its file is under way; otherwise
      the record is only buffered, whatever flushes are. */
  method Append(w: Log, payload: seq<Byte>, ghost g: G.State)
    returns (r: Appended, ghost acts: seq<G.Act>, ghost g': G.State)
    requires Counts(w, g) && (Appendable(payload) && Full(w, payload) ==> forall t :: !G.Flushes(g, t))
    modifies w
    ensures Counts(w, g') && G.Run(g, acts, g')
    ensures r.Lsn? <==> Appendable(payload)
    ensures r.Lsn? ==>
      r.lsn == g'.appended && w.recs == old(w.recs) + [payload] && 0 < |w.bases| && w.bases[0] == old(w.bases[0])
    ensures r.Refused? ==> w.recs == old(w.recs) && w.bases == old(w.bases) && g' == g
    ensures r.Lsn? ==>
      w.activeSize == (if old(Full(w, payload)) then 0 else old(w.activeSize)) + HEADER_SIZE + |payload|
    ensures acts == (if r.Refused? then [] else if old(Full(w, payload)) then [G.Rotate, G.Append] else [G.Append])
  {
    hide Encode, Tiles;
    Positions(w);
    ghost var rotates := Appendable(payload) && Full(w, payload);
    acts, g' := AppendActs(g, rotates);
    r := w.Append(payload);
    Positions(w);
    if r.Refused? {
      acts, g' := [], g;
    }
  }

  lemma ActiveNonempty(w: Log)
    requires w.Valid() && w.activeSize > 0
    ensures w.activeBase < w.nextLSN
  {
    hide Encode;
    NonemptyEncode(w.crc, w.recs[w.activeBase - w.bases[0]..w.written]);
    NonemptyEncode(w.crc, w.recs[w.written..]);
  }

  /** The part of Sync under the append lock is the protocol's Write, whatever other threads are doing. */
  method Write(w: Log, ghost g: G.State, ghost t: G.Tid)
    requires Counts(w, g) && G.Enabled(g, G.Write(t))
    modifies w
    ensures Counts(w, G.Do(g, G.Write(t))) && w.recs == old(w.recs) && w.bases == old(w.bases)
      && w.activeSize == old(w.activeSize)
  {
    hide Encode, Tiles;
    Positions(w);
    var ok := w.Drain();
    Positions(w);
  }

  /** Taking the file lock reads how much the active file holds and changes nothing. */
  lemma Begin(w: Log, g: G.State, t: G.Tid)
    requires Counts(w, g) && G.Enabled(g, G.Begin(t))
    ensures Counts(w, G.Do(g, G.Begin(t))) && w.bases[0] - 1 + w.written == g.base + G.Do(g, G.Begin(t)).syncs[t].upTo
  {
    hide Encode, Tiles;
    Positions(w);
  }

  /** The end of a flush is the protocol's End: what the file held at its beginning is stable, whatever was appended or
      deleted since. */
  method End(w: Log, ghost g: G.State, ghost t: G.Tid)
    requires Counts(w, g) && G.Enabled(g, G.End(t)) && G.SyncInv(g)
    modifies w
    ensures Counts(w, G.Do(g, G.End(t))) && w.recs == old(w.recs) && w.bases == old(w.bases)
      && w.activeSize == old(w.activeSize)
  {
    hide Encode, Tiles, G.SyncOk;
    Positions(w);
    EndsWithinFile(g, t);
    var ok := w.FlushActive(g.base + g.syncs[t].upTo + 1);
    Positions(w);
  }

  lemma EndsWithinFile(g: G.State, t: G.Tid)
    requires t in g.syncs && g.syncs[t].Flushing? && G.SyncInv(g)
    ensures g.base + g.syncs[t].upTo <= g.written
  {
    assert G.SyncOk(g, g.syncs[t]);
  }

  /** A write of the buffer, the start of a flush and its end, with nothing in between. */
  lemma UndisturbedSync(g: G.State, t: G.Tid) returns (g': G.State)
    requires G.LogInv(g) && !g.broken && t !in g.syncs && (t in g.loops ==> g.loops[t].Syncing?)
    ensures G.Run(g, [G.Write(t), G.Begin(t), G.End(t)], g')
    ensures G.LogInv(g') && G.Durable(g') == g.appended
    ensures g' == g.(written := g.appended, synced := g.appended - g.base, syncs := g.syncs[t := G.Synced(g.appended)])
  {
    var g1 := G.Do(g, G.Write(t));
    var g2 := G.Do(g1, G.Begin(t));
    g' := G.Do(g2, G.End(t));
    RunTwo(g1, G.Begin(t), G.End(t));
    RunMore(g, G.Write(t), [G.Begin(t), G.End(t)], g');
    assert g'.syncs == g.syncs[t := G.Synced(g.appended)];
  }

  lemma RunMore(g: G.State, a: G.Act, rest: seq<G.Act>, g': G.State)
    requires G.Enabled(g, a) && G.Run(G.Do(g, a), rest, g')
    ensures G.Run(g, [a] + rest, g')
  {
    assert ([a] + rest)[1..] == rest;
  }

  /** Sync with nothing in between is the three of them, whatever other threads are in the middle of. */
  method Sync(w: Log, ghost g: G.State, ghost t: G.Tid) returns (ghost g': G.State)
    requires Counts(w, g) && t !in g.syncs && (t in g.loops ==> g.loops[t].Syncing?)
    modifies w
    ensures Counts(w, g') && w.recs == old(w.recs)
    ensures G.Run(g, [G.Write(t), G.Begin(t), G.End(t)], g') && g'.syncs == g.syncs[t := G.Synced(g.appended)]
  {
    hide Encode, Tiles, G.Run, G.Do, G.Enabled;
    Positions(w);
    g' := UndisturbedSync(g, t);
    var ok := w.Sync();
    Positions(w);
  }

  /** Deleting old segments is invisible to the protocol. */
  method TruncateBefore(w: Log, lsn: nat, ghost g: G.State)
    requires Counts(w, g)
    modifies w
    ensures w.activeSize == old(w.activeSize)
    ensures Counts(w, g) && old(w.bases[0]) <= w.bases[0]
    ensures w.recs == old(w.recs)[w.bases[0] - old(w.bases[0])..]
      && (w.bases[0] == old(w.bases[0]) || w.bases[0] <= lsn)
  {
    hide Encode, Tiles, G.Durable, G.LogInv;
    Positions(w);
    var _, _ := w.TruncateBefore(lsn);
    Positions(w);
  }

  /** A crash that spares the stable bytes, in the middle of writing the buffer or not, followed by Open, is a Reboot
      that keeps at least the durable records; the records kept still have the LSNs they were appended under. */
  method Reopen(w: Log, file: seq<Byte>, ghost g: G.State) returns (w': Log, ghost stable: nat, ghost kept: nat)
    requires Counts(w, g) && file <= w.files[w.activeBase] + w.buf
    requires |Encode(w.crc, w.recs[w.activeBase - w.bases[0]..w.durable])| <= |file|
    ensures fresh(w') && w'.crc == w.crc && g.base <= stable && Counts(w', G.Reboot(g.base, stable, kept))
    ensures G.Durable(g) <= stable <= kept <= g.appended
    ensures w'.bases == w.bases && w'.recs <= w.recs && kept == w'.nextLSN - 1
  {
    hide Encode, Scan;
    w.AnyCrashCanReopen(file);
    CrashCanReopen(w.crc, w.files[w.activeBase := file], w.bases, w.recs, w.durable);
    ghost var a := w.activeBase - w.bases[0];
    assert w.files[w.activeBase := file][w.activeBase] == file;
    hide Tiles, SealedHold, LeftByCrash;
    w' := new Log.Open(w.crc, w.maxSegmentSize, w.files[w.activeBase := file], w.bases, w.recs[..a], w.durable);
    stable, kept := w'.bases[0] - 1 + w'.durable, w'.nextLSN - 1;
    Positions(w);
    Positions(w');
  }

  // ----------------------------------------------------------------- replay ---

  /** The records of a log are the encodings of its events. */
  ghost predicate Encodes(first: nat, recs: seq<Payload>, log: seq<J.Event>, enc: J.Event -> seq<Byte>) {
    && 1 <= first && |log| == first - 1 + |recs|
    && forall i :: 0 <= i < |recs| ==> recs[i] == enc(log[first - 1 + i])
  }

  /** Decoding gives back every event logged. Payloads are bounded and events are not, so none can do so for every
      event. */
  ghost predicate Decodes(log: seq<J.Event>, enc: J.Event -> seq<Byte>, dec: seq<Byte> -> J.Event) {
    forall e :: e in log ==> dec(enc(e)) == e
  }

  function Decoded(out: seq<Numbered>, dec: seq<Byte> -> J.Event): seq<J.Event> {
    seq(|out|, i requires 0 <= i < |out| => dec(out[i].payload))
  }

  /** Replaying from just past a snapshot and decoding hands recovery the events after it, in order: the suffix that the
      broker's recovery is stated over. */
  lemma ReplayIsSuffix(first: nat, recs: seq<Payload>, log: seq<J.Event>, enc: J.Event -> seq<Byte>,
      dec: seq<Byte> -> J.Event, snap: R.Snapshot)
    requires Encodes(first, recs, log, enc) && Decodes(log, enc, dec)
    ensures Decoded(ReplayFrom(first, recs, snap.lsn + 1), dec) == R.Suffix(snap, first, log)
  {
    var out := ReplayFrom(first, recs, snap.lsn + 1);
    var es := Decoded(out, dec);
    var suffix := R.Suffix(snap, first, log);
    assert |es| == |suffix|;
    forall i | 0 <= i < |es|
      ensures es[i] == suffix[i]
    {
      var k := |recs| - |out| + i;
      assert out[i].payload == recs[k] == enc(log[first - 1 + k]);
    }
  }
}
