/** The segmented log: buffered appends, flushes, rotation, replay, prefix deletion and reopening.

    A segment file is named by the LSN of its first record, so the directory is a map from base LSN to contents.
    LSNs are unbounded here. */
module Wal {
  import opened Framing

  datatype AppendError = Closed | EmptyPayload | RecordTooLarge
  datatype Appended = Lsn(lsn: nat) | Refused(error: AppendError)
  datatype Numbered = Numbered(lsn: nat, payload: Payload)

  type Dir = map<nat, seq<Byte>>

  const DEFAULT_MAX_SEGMENT_SIZE := 0x100_0000

  predicate Increasing(bases: seq<nat>) {
    forall i, j :: 0 <= i < j < |bases| ==> bases[i] < bases[j]
  }

  /** The i-th segment, closed, holds the records from its base up to the next segment's base, and nothing else. */
  ghost predicate SegmentHolds(crc: Crc, files: Dir, bases: seq<nat>, recs: seq<Payload>, i: nat) {
    && i + 1 < |bases| && bases[i] in files
    && bases[0] <= bases[i] <= bases[i + 1] <= bases[0] + |recs|
    && files[bases[i]] == Encode(crc, recs[bases[i] - bases[0]..bases[i + 1] - bases[0]])
  }

  /** A directory listing whose closed segments tile the front of recs. */
  ghost predicate SealedHold(crc: Crc, files: Dir, bases: seq<nat>, recs: seq<Payload>) {
    && 0 < |bases| && Increasing(bases) && 1 <= bases[0]
    && bases[0] <= bases[|bases| - 1] <= bases[0] + |recs|
    && (forall b :: b in files <==> b in bases)
    && forall i :: 0 <= i < |bases| - 1 ==> SegmentHolds(crc, files, bases, recs, i)
  }

  /** What a crash may leave of a log holding recs: its closed segments, and any byte prefix of what was meant for the
      active one that reaches at least the first `durable` records. */
  ghost predicate LeftByCrash(crc: Crc, files: Dir, bases: seq<nat>, recs: seq<Payload>, durable: nat) {
    && SealedHold(crc, files, bases, recs)
    && bases[|bases| - 1] - bases[0] <= durable <= |recs|
    && var a := bases[|bases| - 1] - bases[0];
       && files[bases[|bases| - 1]] <= Encode(crc, recs[a..])
       && |Encode(crc, recs[a..durable])| <= |files[bases[|bases| - 1]]|
  }

  /** The records from LSN `from` on, each with its LSN, in order. */
  function ReplayFrom(first: nat, recs: seq<Payload>, from: nat): (out: seq<Numbered>)
  {
    var skip := if from <= first then 0 else if from - first <= |recs| then from - first else |recs|;
    seq(|recs| - skip, i requires 0 <= i < |recs| - skip => Numbered(first + skip + i, recs[skip + i]))
  }

  /** It starts at the cutoff, or at the first record if that is later, ends with the last, and leaves none out. */
  lemma ReplayFromIs(first: nat, recs: seq<Payload>, from: nat, lsn: nat)
    ensures var out := ReplayFrom(first, recs, from);
            var start := if from <= first then first else from;
            && |out| == (if start <= first + |recs| then first + |recs| - start else 0)
            && (start <= lsn < first + |recs| ==> out[lsn - start] == Numbered(lsn, recs[lsn - first]))
  {
  }

  lemma EncodeSplit(crc: Crc, ps: seq<Payload>, k: nat)
    requires k <= |ps|
    ensures Encode(crc, ps) == Encode(crc, ps[..k]) + Encode(crc, ps[k..])
  {
    hide Encode;
    EncodeConcat(crc, ps[..k], ps[k..]);
    assert ps == ps[..k] + ps[k..];
  }

  lemma NonemptyEncode(crc: Crc, ps: seq<Payload>)
    ensures (Encode(crc, ps) == []) <==> (ps == [])
  {
  }

  /** The scan of the last segment finds a prefix of what was appended to it, reaching at least the durable part. */
  lemma TornSegment(crc: Crc, tail: seq<Payload>, file: seq<Byte>, durable: nat)
    requires durable <= |tail| && file <= Encode(crc, tail) && |Encode(crc, tail[..durable])| <= |file|
    ensures Scan(crc, file) <= tail && durable <= |Scan(crc, file)|
  {
    hide Encode, Scan;
    assert Encode(crc, tail)[..|file|] == file;
    ScanOfTornLog(crc, tail, |file|);
    TornLogKeepsDurable(crc, tail, durable, |file|);
  }

  /** Closed segments do not notice how much of the active segment survives. */
  lemma SealedSurvive(crc: Crc, files: Dir, bases: seq<nat>, was: seq<Payload>, recs: seq<Payload>, file: seq<Byte>)
    requires SealedHold(crc, files, bases, was)
    requires recs <= was && bases[|bases| - 1] - bases[0] <= |recs|
    ensures SealedHold(crc, files[bases[|bases| - 1] := file], bases, recs)
  {
    hide Encode;
    var files' := files[bases[|bases| - 1] := file];
    forall i | 0 <= i < |bases| - 1
      ensures SegmentHolds(crc, files', bases, recs, i)
    {
      assert SegmentHolds(crc, files, bases, was, i);
      assert bases[i + 1] <= bases[|bases| - 1];
      assert was[bases[i] - bases[0]..bases[i + 1] - bases[0]] == recs[bases[i] - bases[0]..bases[i + 1] - bases[0]];
    }
  }

  /** Records added behind the closed segments do not change what those hold. */
  lemma SealedAppend(crc: Crc, files: Dir, bases: seq<nat>, sealed: seq<Payload>, more: seq<Payload>)
    requires SealedHold(crc, files, bases, sealed)
    ensures SealedHold(crc, files, bases, sealed + more)
  {
    hide Encode;
    forall i | 0 <= i < |bases| - 1
      ensures SegmentHolds(crc, files, bases, sealed + more, i)
    {
      assert SegmentHolds(crc, files, bases, sealed, i);
      assert (sealed + more)[bases[i] - bases[0]..bases[i + 1] - bases[0]] ==
        sealed[bases[i] - bases[0]..bases[i + 1] - bases[0]];
    }
  }

  /** What a crash leaves is a directory Open accepts, and what Open finds in it is a prefix of what was appended that
      reaches every durable record. */
  lemma CrashCanReopen(crc: Crc, files: Dir, bases: seq<nat>, was: seq<Payload>, durable: nat)
    requires LeftByCrash(crc, files, bases, was, durable)
    ensures var a := bases[|bases| - 1] - bases[0];
            var kept := Scan(crc, files[bases[|bases| - 1]]);
            && SealedHold(crc, files, bases, was[..a]) && bases[|bases| - 1] == bases[0] + |was[..a]|
            && a <= durable <= a + |kept| && was[..a] + kept <= was
  {
    hide Encode, Scan;
    var a := bases[|bases| - 1] - bases[0];
    var last := files[bases[|bases| - 1]];
    assert was[a..][..durable - a] == was[a..durable];
    TornSegment(crc, was[a..], last, durable - a);
    SealedSurvive(crc, files, bases, was, was[..a], last);
    assert files[bases[|bases| - 1] := last] == files;
  }

  /** Sealing the active segment and starting an empty one at the next LSN, which is a base never used before. */
  lemma SealActive(crc: Crc, files: Dir, bases: seq<nat>, recs: seq<Payload>)
    requires SealedHold(crc, files, bases, recs)
    requires var a := bases[|bases| - 1] - bases[0]; a < |recs| && files[bases[|bases| - 1]] == Encode(crc, recs[a..])
    ensures bases[0] + |recs| !in files
    ensures SealedHold(crc, files[bases[0] + |recs| := []], bases + [bases[0] + |recs|], recs)
  {
    hide Encode;
    var next := bases[0] + |recs|;
    var files' := files[next := []];
    var bases' := bases + [next];
    var a := bases[|bases| - 1] - bases[0];
    assert recs[a..] == recs[a..|recs|];
    forall i | 0 <= i < |bases'| - 1
      ensures SegmentHolds(crc, files', bases', recs, i)
    {
      if i < |bases| - 1 {
        assert SegmentHolds(crc, files, bases, recs, i);
      }
    }
  }

  /** Files and buffer together hold exactly recs: `written` of them in files, the rest buffered. */
  ghost predicate Tiles(crc: Crc, files: Dir, bases: seq<nat>, buf: seq<Byte>, recs: seq<Payload>, written: nat,
      durable: nat) {
    && SealedHold(crc, files, bases, recs)
    && var a := bases[|bases| - 1] - bases[0];
       && a <= durable <= written <= |recs|
       && files[bases[|bases| - 1]] == Encode(crc, recs[a..written])
       && buf == Encode(crc, recs[written..])
  }

  lemma NewTiles(crc: Crc)
    ensures Tiles(crc, map[1 := []], [1], [], [], 0, 0)
  {
    assert Encode(crc, []) == [];
  }

  lemma TilesHold(crc: Crc, files: Dir, bases: seq<nat>, buf: seq<Byte>, recs: seq<Payload>, written: nat, durable: nat)
    requires Tiles(crc, files, bases, buf, recs, written, durable)
    ensures SealedHold(crc, files, bases, recs)
  {
  }

  /** What is left after deleting the first `removed` segments still tiles the records that are left. */
  lemma DeletedTiles(crc: Crc, dir: Dir, files: Dir, bases: seq<nat>, buf: seq<Byte>, recs: seq<Payload>,
                     written: nat, durable: nat, removed: nat)
    requires Tiles(crc, dir, bases, buf, recs, written, durable) && Deleted(crc, dir, files, bases, recs, removed)
    ensures removed < |bases| && bases[0] <= bases[removed] <= bases[0] + durable
    ensures durable <= written <= |recs| && bases[|bases| - 1] in dir && bases[|bases| - 1] in files
    ensures files[bases[|bases| - 1]] == dir[bases[|bases| - 1]]
    ensures var d := bases[removed] - bases[0];
            Tiles(crc, files, bases[removed..], buf, recs[d..], written - d, durable - d)
  {
    hide Encode, SegmentHolds, Increasing;
    var d := bases[removed] - bases[0];
    var a := bases[|bases| - 1] - bases[0];
    assert bases[removed..][0] == bases[removed] && bases[removed..][|bases| - removed - 1] == bases[|bases| - 1];
    assert recs[d..][a - d..written - d] == recs[a..written];
    assert recs[d..][written - d..] == recs[written..];
  }

  /** Deleting the oldest of several segments leaves a listing of the remaining records under their own LSNs. */
  lemma DropOldest(crc: Crc, files: Dir, bases: seq<nat>, recs: seq<Payload>)
    requires SealedHold(crc, files, bases, recs) && 1 < |bases|
    ensures bases[0] < bases[1] <= bases[0] + |recs|
    ensures SealedHold(crc, files - {bases[0]}, bases[1..], recs[bases[1] - bases[0]..])
  {
    hide Encode;
    assert SegmentHolds(crc, files, bases, recs, 0);
    var files' := files - {bases[0]};
    var bases' := bases[1..];
    var recs' := recs[bases[1] - bases[0]..];
    forall i | 0 <= i < |bases'| - 1
      ensures SegmentHolds(crc, files', bases', recs', i)
    {
      assert SegmentHolds(crc, files, bases, recs, i + 1);
      assert recs'[bases'[i] - bases'[0]..bases'[i + 1] - bases'[0]]
          == recs[bases[i + 1] - bases[0]..bases[i + 2] - bases[0]];
    }
  }

  lemma ReplayOneMore(first: nat, recs: seq<Payload>, p: Payload, from: nat)
    ensures ReplayFrom(first, recs + [p], from)
         == ReplayFrom(first, recs, from) + if first + |recs| < from then [] else [Numbered(first + |recs|, p)]
  {
  }

  lemma NothingBelow(first: nat, recs: seq<Payload>, from: nat)
    requires recs == [] || first + |recs| <= from
    ensures ReplayFrom(first, recs, from) == []
  {
  }

  /** Delivers one segment's records from LSN `from` on, numbering them up from the segment's base. */
  method ReplaySegment(crc: Crc, file: seq<Byte>, base: nat, from: nat, ghost first: nat, ghost before: seq<Payload>)
    returns (out: seq<Numbered>)
    requires base == first + |before|
    ensures ReplayFrom(first, before + Scan(crc, file), from) == ReplayFrom(first, before, from) + out
  {
    hide Encode, Scan, ReplayFrom;
    var _, count, payloads := ScanRecords(crc, file);
    out := [];
    assert before + payloads[..0] == before;
    for ordinal := 0 to count
      invariant ReplayFrom(first, before + payloads[..ordinal], from) == ReplayFrom(first, before, from) + out
    {
      ReplayOneMore(first, before + payloads[..ordinal], payloads[ordinal], from);
      assert before + payloads[..ordinal] + [payloads[ordinal]] == before + payloads[..ordinal + 1];
      var lsn := base + ordinal;
      if lsn < from {
        continue;
      }
      out := out + [Numbered(lsn, payloads[ordinal])];
    }
    assert payloads[..count] == payloads;
  }

  /** The directory after the first `removed` segments are gone. */
  ghost predicate Deleted(crc: Crc, dir: Dir, files: Dir, bases: seq<nat>, recs: seq<Payload>, removed: nat) {
    && removed < |bases| && bases[0] <= bases[removed] <= bases[|bases| - 1] <= bases[0] + |recs|
    && SealedHold(crc, files, bases[removed..], recs[bases[removed] - bases[0]..])
    && bases[|bases| - 1] in files && bases[|bases| - 1] in dir
    && files[bases[|bases| - 1]] == dir[bases[|bases| - 1]]
  }

  lemma NothingDeleted(crc: Crc, dir: Dir, bases: seq<nat>, recs: seq<Payload>)
    requires SealedHold(crc, dir, bases, recs)
    ensures Deleted(crc, dir, dir, bases, recs, 0)
  {
    assert bases[0..] == bases && recs[0..] == recs;
  }

  lemma DeleteNext(crc: Crc, dir: Dir, files: Dir, bases: seq<nat>, recs: seq<Payload>, removed: nat)
    requires SealedHold(crc, dir, bases, recs) && Deleted(crc, dir, files, bases, recs, removed)
      && removed + 1 < |bases|
    ensures bases[removed] < bases[removed + 1]
    ensures Deleted(crc, dir, files - {bases[removed]}, bases, recs, removed + 1)
  {
    hide Encode, SegmentHolds;
    assert bases[removed] < bases[removed + 1] <= bases[|bases| - 1];
    var kept := recs[bases[removed] - bases[0]..];
    DropOldest(crc, files, bases[removed..], kept);
    assert bases[removed..][1..] == bases[removed + 1..];
    assert kept[bases[removed + 1] - bases[removed]..] == recs[bases[removed + 1] - bases[0]..];
  }

  /** The deleting loop. Every directory it passes through lists a log holding all records from its own base on. */
  method DeleteSegments(crc: Crc, dir: Dir, bases: seq<nat>, lsn: nat, ghost recs: seq<Payload>)
    returns (files: Dir, removed: nat)
    requires SealedHold(crc, dir, bases, recs)
    ensures Deleted(crc, dir, files, bases, recs, removed)
    ensures removed == 0 || bases[removed] <= lsn
    ensures removed + 1 < |bases| ==> bases[removed + 1] > lsn
  {
    hide SealedHold;
    files, removed := dir, 0;
    NothingDeleted(crc, dir, bases, recs);
    while removed + 1 < |bases| && bases[removed + 1] <= lsn
      invariant Deleted(crc, dir, files, bases, recs, removed)
      invariant removed == 0 || bases[removed] <= lsn
    {
      DeleteNext(crc, dir, files, bases, recs, removed);
      files := files - {bases[removed]};
      removed := removed + 1;
    }
  }

  /** Deleting records below LSN `from` is invisible to a replay that starts at `from`. */
  lemma PrefixDeletionIsInvisible(first: nat, recs: seq<Payload>, drop: nat, from: nat)
    requires drop <= |recs| && first + drop <= from
    ensures ReplayFrom(first + drop, recs[drop..], from) == ReplayFrom(first, recs, from)
  {
  }

  /** A directory whose every segment, the active one included, is written out in full. */
  ghost predicate AllHold(crc: Crc, files: Dir, bases: seq<nat>, recs: seq<Payload>) {
    && SealedHold(crc, files, bases, recs)
    && files[bases[|bases| - 1]] == Encode(crc, recs[bases[|bases| - 1] - bases[0]..])
  }

  ghost function SegmentEnd(bases: seq<nat>, recs: seq<Payload>, i: nat): nat
    requires i < |bases|
  {
    if i + 1 < |bases| then bases[i + 1] else bases[0] + |recs|
  }

  lemma SegmentFile(crc: Crc, files: Dir, bases: seq<nat>, recs: seq<Payload>, i: nat)
    requires AllHold(crc, files, bases, recs) && i < |bases|
    ensures var end := SegmentEnd(bases, recs, i);
            && bases[0] <= bases[i] <= end <= bases[0] + |recs| && bases[i] in files
            && recs[..bases[i] - bases[0]] + Scan(crc, files[bases[i]]) == recs[..end - bases[0]]
  {
    hide Encode, Scan;
    var end := SegmentEnd(bases, recs, i);
    if i + 1 < |bases| {
      assert SegmentHolds(crc, files, bases, recs, i);
    } else {
      assert recs[bases[i] - bases[0]..] == recs[bases[i] - bases[0]..end - bases[0]];
    }
    ScanInvertsEncode(crc, recs[bases[i] - bases[0]..end - bases[0]]);
  }

  /** The replay loop: skips segments that lie wholly below the cutoff, and reads the rest in order. */
  method ReplaySegments(crc: Crc, files: Dir, bases: seq<nat>, from: nat, ghost recs: seq<Payload>)
    returns (out: seq<Numbered>)
    requires AllHold(crc, files, bases, recs) && 0 < |bases|
    ensures out == ReplayFrom(bases[0], recs, from)
  {
    hide AllHold, Scan, ReplayFrom;
    out := [];
    NothingBelow(bases[0], [], from);
    assert recs[..0] == [];
    ghost var done: nat := 0;                    // records before the next segment to read
    for i := 0 to |bases|
      invariant done == (if i < |bases| then bases[i] - bases[0] else |recs|) <= |recs|
      invariant out == ReplayFrom(bases[0], recs[..done], from)
    {
      SegmentFile(crc, files, bases, recs, i);
      ghost var end := SegmentEnd(bases, recs, i) - bases[0];
      if i + 1 < |bases| && bases[i + 1] <= from {
        NothingBelow(bases[0], recs[..done], from);
        NothingBelow(bases[0], recs[..end], from);
      } else {
        var more := ReplaySegment(crc, files[bases[i]], bases[i], from, bases[0], recs[..done]);
        out := out + more;
      }
      done := end;
    }
    assert recs[..|recs|] == recs;
  }

  class Log {
    const crc: Crc
    const maxSegmentSize: nat

    var files: Dir
    var bases: seq<nat>
    var buf: seq<Byte>
    var activeBase: nat
    var activeSize: nat
    var nextLSN: nat
    var closed: bool

    /** Every retained record, on disk or still buffered; recs[i] has LSN bases[0] + i. */
    ghost var recs: seq<Payload>
    /** How many of them have reached the active file. */
    ghost var written: nat
    /** How many of them are on stable storage. */
    ghost var durable: nat

    ghost predicate Valid()
      reads this
    {
      && Tiles(crc, files, bases, buf, recs, written, durable)
      && activeBase == bases[|bases| - 1]
      && activeSize == |files[activeBase]| + |buf|
      && nextLSN == bases[0] + |recs|
    }

    ghost function First(): nat
      reads this
      requires |bases| > 0
    {
      bases[0]
    }

    /** Opens an empty directory: the first record will have LSN 1. */
    constructor Create(crc: Crc, maxSegmentSize: nat)
      ensures Valid() && !closed
      ensures this.crc == crc && this.maxSegmentSize == (if maxSegmentSize == 0 then 16 * 1024 * 1024
                                                                        else maxSegmentSize)
      ensures First() == 1 && recs == [] && nextLSN == 1 && bases == [1]
    {
      NewTiles(crc);
      hide Tiles;
      this.crc := crc;
      this.maxSegmentSize := if maxSegmentSize == 0 then DEFAULT_MAX_SEGMENT_SIZE else maxSegmentSize;
      files, bases, buf, activeBase, activeSize, nextLSN, closed := map[1 := []], [1], [], 1, 0, 1, false;
      recs, written, durable := [], 0, 0;
    }

    /** Opens a directory whose closed segments hold `sealed`, whatever bytes the last file holds: its records stay,
        under their own LSNs, and anything after them is cut off. `stable` counts records known to be on stable
        storage. */
    constructor Open(crc: Crc, maxSegmentSize: nat, disk: Dir, listing: seq<nat>, ghost sealed: seq<Payload>,
        ghost stable: nat)
      requires SealedHold(crc, disk, listing, sealed) && listing[|listing| - 1] == listing[0] + |sealed|
      requires |sealed| <= stable <= |sealed| + |Scan(crc, disk[listing[|listing| - 1]])|
      ensures Valid() && !closed && fresh(this)
      ensures this.crc == crc && bases == listing
      ensures this.maxSegmentSize == (if maxSegmentSize == 0 then DEFAULT_MAX_SEGMENT_SIZE else maxSegmentSize)
      ensures recs == sealed + Scan(crc, disk[listing[|listing| - 1]])
      ensures written == |recs| && stable <= durable <= |recs| && buf == []
      ensures nextLSN == First() + |recs|
      ensures files[activeBase] <= disk[activeBase] && forall b :: b in disk && b != activeBase ==>
        b in files && files[b] == disk[b]
    {
      hide Encode, Scan;
      var base := listing[|listing| - 1];
      var validEnd, count, payloads := ScanRecords(crc, disk[base]);
      ghost var all := sealed + payloads;
      SealedSurvive(crc, disk, listing, sealed, sealed, disk[base][..validEnd]);
      SealedAppend(crc, disk[base := disk[base][..validEnd]], listing, sealed, payloads);
      NonemptyEncode(crc, []);
      assert all[|sealed|..|all|] == payloads && all[|all|..] == [];
      this.crc := crc;
      this.maxSegmentSize := if maxSegmentSize == 0 then DEFAULT_MAX_SEGMENT_SIZE else maxSegmentSize;
      files := disk[base := disk[base][..validEnd]];
      bases, buf, activeBase, activeSize, nextLSN, closed := listing, [], base, validEnd, base + count, false;
      recs, written := all, |all|;
      // A torn tail is cut and synced; an intact file is left as it was found.
      durable := if |disk[base]| > validEnd then |all| else stable;
    }

    /** A crash may catch a write of the buffer half-way, so it leaves some byte prefix of the active file and the
        buffer behind it. Any that spares the durable records is something Open can recover from. */
    lemma AnyCrashCanReopen(file: seq<Byte>)
      requires Valid() && file <= files[activeBase] + buf
      requires |Encode(crc, recs[activeBase - bases[0]..durable])| <= |file|
      ensures LeftByCrash(crc, files[activeBase := file], bases, recs, durable)
    {
      hide Encode, SegmentHolds;
      SealedSurvive(crc, files, bases, recs, recs, file);
      var a := activeBase - bases[0];
      EncodeSplit(crc, recs[a..], written - a);
      assert recs[a..][..written - a] == recs[a..written] && recs[a..][written - a..] == recs[written..];
    }

    /** Frames a payload into the pending buffer; the file is not touched unless the segment is full. */
    method Append(payload: seq<Byte>) returns (r: Appended)
      requires Valid()
      modifies this
      ensures Valid() && closed == old(closed)
      ensures r == if old(closed) then Refused(Closed)
                   else if |payload| == 0 then Refused(EmptyPayload)
                   else if |payload| > 64 * 1024 * 1024 then Refused(RecordTooLarge)
                   else Lsn(old(nextLSN))
      ensures r.Refused? ==>
        recs == old(recs) && bases == old(bases) && written == old(written) && durable == old(durable)
      ensures r.Lsn? ==> recs == old(recs) + [payload] && First() == old(First()) && nextLSN == old(nextLSN) + 1
      ensures r.Lsn? ==>
        if old(activeSize) > 0 && old(activeSize) + HEADER_SIZE + |payload| > maxSegmentSize
        then (&& bases == old(bases) + [old(nextLSN)] && written == durable == |old(recs)|
              && activeSize == HEADER_SIZE + |payload|)
        else (&& bases == old(bases) && written == old(written) && durable == old(durable)
              && activeSize == old(activeSize) + HEADER_SIZE + |payload|)
    {
      hide Encode, Frame, Tiles;
      DurableIsLogged();
      if closed {
        return Refused(Closed);
      }
      if |payload| == 0 {
        return Refused(EmptyPayload);
      }
      if |payload| > MAX_RECORD_SIZE {
        return Refused(RecordTooLarge);
      }
      var size := HEADER_SIZE + |payload|;
      if activeSize > 0 && activeSize + size > maxSegmentSize {
        Rotate();
        DurableIsLogged();
      }
      BufferGrows(payload);
      buf := buf + Frame(crc, payload);
      recs := recs + [payload];
      activeSize := activeSize + size;
      r := Lsn(nextLSN);
      nextLSN := nextLSN + 1;
    }

    /** Writes pending records to the active segment, not yet to stable storage. */
    method FlushBuffer()
      requires Valid()
      modifies this
      ensures Valid() && buf == [] && written == |recs|
      ensures recs == old(recs) && bases == old(bases) && durable == old(durable) && closed == old(closed)
      ensures nextLSN == old(nextLSN) && activeSize == old(activeSize) && activeBase == old(activeBase)
      ensures files == old(files[activeBase := files[activeBase] + buf])
    {
      hide Encode, SegmentHolds;
      ghost var a := activeBase - bases[0];
      EncodeSplit(crc, recs[a..], written - a);
      assert recs[a..][..written - a] == recs[a..written] && recs[a..][written - a..] == recs[written..];
      assert recs[a..] == recs[a..|recs|];
      NonemptyEncode(crc, []);
      assert recs[|recs|..] == [];
      if |buf| == 0 {
        NonemptyEncode(crc, recs[written..]);
        assert files[activeBase] + buf == files[activeBase];
        written := |recs|;
        return;
      }
      SealedSurvive(crc, files, bases, recs, recs, files[activeBase] + buf);
      files := files[activeBase := files[activeBase] + buf];
      written := |recs|;
      buf := [];
    }

    /** The part of Sync that holds the append lock. */
    method Drain() returns (ok: bool)
      requires Valid()
      modifies this
      ensures Valid() && ok == !old(closed) && closed == old(closed)
      ensures recs == old(recs) && bases == old(bases) && nextLSN == old(nextLSN) && durable == old(durable)
        && activeSize == old(activeSize)
      ensures if ok then buf == [] && written == |recs| else buf == old(buf) && written == old(written)
    {
      if closed {
        return false;
      }
      FlushBuffer();
      ok := true;
    }

    /** The part that does not: flushes the active file, which held the records below LSN upTo when the flush began.
        Appends, and deletion of older segments, may have come in between; rotation waits. */
    method FlushActive(ghost upTo: nat) returns (ok: bool)
      requires Valid() && upTo <= First() + written
      modifies this
      ensures Valid() && ok == !old(closed) && closed == old(closed)
      ensures recs == old(recs) && bases == old(bases) && nextLSN == old(nextLSN) && written == old(written)
        && buf == old(buf)
      ensures activeSize == old(activeSize)
      ensures durable == if ok && old(First() + durable) < upTo then upTo - First() else old(durable)
    {
      hide Encode, SegmentHolds;
      if closed {
        return false;
      }
      if First() + durable < upTo {
        durable := upTo - First();
      }
      ok := true;
    }

    /** Left undisturbed, everything appended before the call is durable after it. */
    method Sync() returns (ok: bool)
      requires Valid()
      modifies this
      ensures Valid() && ok == !old(closed) && closed == old(closed)
      ensures recs == old(recs) && bases == old(bases) && nextLSN == old(nextLSN)
      ensures ok ==> written == durable == |recs|
      ensures !ok ==> durable == old(durable) && written == old(written)
    {
      hide Tiles;
      ok := Drain();
      if ok {
        ok := FlushActive(nextLSN);
        DurableIsLogged();
      }
    }

    lemma DurableIsLogged()
      requires Valid()
      ensures 0 < |bases| && durable <= written <= |recs|
    {
    }

    /** Appends and syncs: the record, and everything before it, is durable on return. */
    method AppendSync(payload: seq<Byte>) returns (r: Appended)
      requires Valid()
      modifies this
      ensures Valid() && closed == old(closed)
      ensures r.Lsn? <==> !old(closed) && Appendable(payload)
      ensures r.Lsn? ==>
        r.lsn == old(nextLSN) && recs == old(recs) + [payload] && durable == |recs| && First() == old(First())
      ensures r.Refused? ==> recs == old(recs) && durable == old(durable) && bases == old(bases)
    {
      hide Tiles;
      r := Append(payload);
      if r.Lsn? {
        var _ := Sync();
      }
    }

    /** Writes out and syncs the active segment, then starts a new one whose base is the next LSN. */
    method Rotate()
      requires Valid() && !closed && activeSize > 0
      modifies this
      ensures Valid() && !closed
      ensures recs == old(recs) && nextLSN == old(nextLSN)
      ensures bases == old(bases) + [nextLSN] && nextLSN !in old(bases)
      ensures written == durable == |recs| && activeSize == 0 && buf == []
    {
      hide Encode, SegmentHolds;
      FlushBuffer();
      SealedTiles();
      hide Tiles;
      durable := |recs|;
      files := files[nextLSN := []];
      bases := bases + [nextLSN];
      activeBase := nextLSN;
      activeSize := 0;
    }

    /** Hands every retained record with LSN >= from to the caller, once, in order, with the LSN Append returned. */
    method Replay(from: nat) returns (ok: bool, out: seq<Numbered>)
      requires Valid()
      modifies this
      ensures Valid() && ok == !old(closed) && closed == old(closed)
      ensures recs == old(recs) && bases == old(bases) && durable == old(durable) && nextLSN == old(nextLSN)
      ensures ok ==> written == |recs|
      ensures out == if ok then ReplayFrom(First(), recs, from) else []
    {
      out := [];
      if closed {
        return false, out;
      }
      hide Encode, SealedHold;
      FlushBuffer();
      ok := true;
      AllFlushed();
      out := ReplaySegments(crc, files, bases, from, recs);
    }

    lemma AllFlushed()
      requires Valid() && written == |recs|
      ensures AllHold(crc, files, bases, recs)
    {
      hide Encode;
      assert recs[activeBase - bases[0]..written] == recs[activeBase - bases[0]..];
    }

    /** Framing one payload extends the buffered bytes by exactly its frame. */
    lemma BufferGrows(payload: Payload)
      requires Valid()
      ensures Tiles(crc, files, bases, buf + Frame(crc, payload), recs + [payload], written, durable)
      ensures 0 < |bases|
    {
      hide Encode, Frame, SegmentHolds;
      SealedAppend(crc, files, bases, recs, [payload]);
      assert (recs + [payload])[activeBase - bases[0]..written] == recs[activeBase - bases[0]..written];
      assert (recs + [payload])[written..] == recs[written..] + [payload];
      EncodeConcat(crc, recs[written..], [payload]);
      EncodeOne(crc, payload);
    }

    /** A flushed segment with bytes in it holds a record, so its successor's base is new; the successor is empty. */
    lemma SealedTiles()
      requires Valid() && buf == [] && written == |recs| && activeSize > 0
      ensures 0 < |bases| && nextLSN !in bases
      ensures Tiles(crc, files[nextLSN := []], bases + [nextLSN], [], recs, |recs|, |recs|)
    {
      hide Encode, SegmentHolds;
      ghost var a := activeBase - bases[0];
      assert recs[a..written] == recs[a..];
      NonemptyEncode(crc, recs[a..]);
      NonemptyEncode(crc, []);
      assert recs[|recs|..] == [] && recs[|recs|..|recs|] == [];
      SealActive(crc, files, bases, recs);
    }

    /** Deletes the closed segments that lie wholly below lsn. Between any two deletions the
        directory lists a well-formed log, so a crash there loses nothing from lsn on. */
    method TruncateBefore(lsn: nat) returns (ok: bool, removed: nat)
      requires Valid()
      modifies this
      ensures Valid() && ok == !old(closed) && closed == old(closed)
      ensures nextLSN == old(nextLSN) && activeBase == old(activeBase) && activeSize == old(activeSize)
      ensures !ok ==> bases == old(bases) && recs == old(recs) && durable == old(durable) && written == old(written)
      ensures ok ==>
        && removed < |old(bases)|
        && (removed == 0 || old(bases)[removed] <= lsn)
        && (removed + 1 < |old(bases)| ==> old(bases)[removed + 1] > lsn)
        && var d := old(bases)[removed] - old(bases)[0];
           && bases == old(bases)[removed..] && 0 <= d <= |old(recs)| && recs == old(recs)[d..]
           && durable == old(durable) - d && written == old(written) - d
    {
      hide Tiles, Deleted, SealedHold;
      if closed {
        return false, 0;
      }
      ok := true;
      TilesHold(crc, files, bases, buf, recs, written, durable);
      var rest, count := DeleteSegments(crc, files, bases, lsn, recs);
      removed := count;
      DeletedTiles(crc, files, rest, bases, buf, recs, written, durable, removed);
      assert bases[removed..][|bases| - removed - 1] == activeBase;
      ghost var d := bases[removed] - bases[0];
      files := rest;
      bases := bases[removed..];
      recs, written, durable := recs[d..], written - d, durable - d;
    }

    /** Writes, syncs and closes, which leaves what a crash after a whole write of the buffer would. Closing twice is a
        no-op. */
    method Close()
      requires Valid()
      modifies this
      ensures Valid() && closed && recs == old(recs) && bases == old(bases) && nextLSN == old(nextLSN)
      ensures durable == if old(closed) then old(durable) else |recs|
      ensures !old(closed) ==>
        activeBase == old(activeBase) && files == old(files[activeBase := files[activeBase] + buf])
    {
      hide Encode, SegmentHolds;
      if closed {
        return;
      }
      closed := true;
      FlushBuffer();
      durable := |recs|;
    }
  }
}
