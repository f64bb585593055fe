/** The record format of the write-ahead log, and the scan that recovers records from bytes.

    A record is a little-endian length, a checksum over length and payload, and the payload.
    The checksum is any deterministic function: nothing below needs it to be free of collisions. */
module Framing {
  import opened Options

  type Byte = x: int | 0 <= x < 0x100
  type Uint32 = x: int | 0 <= x < 0x1_0000_0000
  type Crc = seq<Byte> -> Uint32

  const HEADER_SIZE := 8
  const MAX_RECORD_SIZE := 0x400_0000

  /** A payload the log accepts: an empty one, or one over the cap, is refused by Append. */
  predicate Appendable(p: seq<Byte>) {
    0 < |p| <= MAX_RECORD_SIZE
  }

  type Payload = p: seq<Byte> | Appendable(p) witness [0]

  function PutUint32(n: Uint32): (b: seq<Byte>)
    ensures |b| == 4
  {
    [n % 0x100, n / 0x100 % 0x100, n / 0x1_0000 % 0x100, n / 0x100_0000]
  }

  function GetUint32(b: seq<Byte>): Uint32
    requires |b| == 4
  {
    b[0] as int + b[1] as int * 0x100 + b[2] as int * 0x1_0000 + b[3] as int * 0x100_0000
  }

  lemma Uint32RoundTrip(n: Uint32)
    ensures GetUint32(PutUint32(n)) == n
  {
    assert n / 0x1_0000 == n / 0x100 / 0x100 && n / 0x100_0000 == n / 0x100 / 0x100 / 0x100;
  }

  lemma BytesRoundTrip(b: seq<Byte>)
    requires |b| == 4
    ensures PutUint32(GetUint32(b)) == b
  {
    var n := GetUint32(b);
    assert n / 0x100 == b[1] as int + b[2] as int * 0x100 + b[3] as int * 0x1_0000;
    assert n / 0x1_0000 == b[2] as int + b[3] as int * 0x100;
    assert n / 0x100_0000 == b[3];
  }

  /** What Append writes for one payload. */
  function Frame(crc: Crc, p: Payload): (b: seq<Byte>)
    ensures |b| == HEADER_SIZE + |p|
  {
    PutUint32(|p|) + PutUint32(crc(PutUint32(|p|) + p)) + p
  }

  /** A frame byte by byte: the length from its lowest byte up, the checksum of those four bytes and the payload
      likewise, and the payload. */
  lemma FrameBytes(crc: Crc, p: Payload)
    ensures var b := Frame(crc, p);
            var n, c := |p|, crc(b[..4] + p);
            && |b| == 8 + n
            && b[0] == n % 256 && b[1] == n / 256 % 256 && b[2] == n / 65536 % 256 && b[3] == n / 16777216 % 256
            && b[4] == c % 256 && b[5] == c / 256 % 256 && b[6] == c / 65536 % 256 && b[7] == c / 16777216 % 256
            && b[8..] == p
  {
    assert Frame(crc, p)[..4] == PutUint32(|p|);
  }

  /** A record starts here exactly if there is room for a header, the length it gives is allowed and all there, and the
      checksum it gives is that of the length bytes and the payload. */
  lemma HeadIff(crc: Crc, b: seq<Byte>)
    ensures Head(crc, b).Some? <==>
      && 8 <= |b|
      && var n := b[0] as int + 256 * b[1] as int + 65536 * b[2] as int + 16777216 * b[3] as int;
         && 0 < n <= 64 * 1024 * 1024 && 8 + n <= |b|
         && crc(b[..4] + b[8..8 + n])
            == b[4] as int + 256 * b[5] as int + 65536 * b[6] as int + 16777216 * b[7] as int
  {
  }

  function Encode(crc: Crc, ps: seq<Payload>): seq<Byte> {
    if ps == [] then [] else Frame(crc, ps[0]) + Encode(crc, ps[1..])
  }

  /** The record at the front of b, if there is a whole one whose checksum matches. */
  function Head(crc: Crc, b: seq<Byte>): Option<Payload> {
    if |b| < HEADER_SIZE then None else
    var length := GetUint32(b[..4]);
    if length == 0 || length > MAX_RECORD_SIZE then None else
    if |b| < HEADER_SIZE + length then None else
    if crc(b[..4] + b[8..8 + length]) != GetUint32(b[4..8]) then None else
    Some(b[8..8 + length])
  }

  function Scan(crc: Crc, b: seq<Byte>): seq<Payload>
    decreases |b|
  {
    var h := Head(crc, b);
    if h.None? then [] else [h.value] + Scan(crc, b[HEADER_SIZE + |h.value|..])
  }

  lemma HeadOfFrame(crc: Crc, p: Payload, rest: seq<Byte>)
    ensures Head(crc, Frame(crc, p) + rest) == Some(p)
  {
    var b := Frame(crc, p) + rest;
    Uint32RoundTrip(|p|);
    Uint32RoundTrip(crc(PutUint32(|p|) + p));
    assert b[..4] == PutUint32(|p|);
    assert b[4..8] == PutUint32(crc(PutUint32(|p|) + p));
    assert b[8..8 + |p|] == p;
  }

  lemma FrameOfHead(crc: Crc, b: seq<Byte>)
    requires Head(crc, b).Some?
    ensures var p := Head(crc, b).value; |b| >= HEADER_SIZE + |p| && b == Frame(crc, p) + b[HEADER_SIZE + |p|..]
  {
    BytesRoundTrip(b[..4]);
    BytesRoundTrip(b[4..8]);
  }

  lemma ScanOneFrame(crc: Crc, p: Payload, rest: seq<Byte>)
    ensures Scan(crc, Frame(crc, p) + rest) == [p] + Scan(crc, rest)
  {
    HeadOfFrame(crc, p, rest);
    assert (Frame(crc, p) + rest)[HEADER_SIZE + |p|..] == rest;
  }

  lemma {:induction false} EncodeConcat(crc: Crc, ps: seq<Payload>, qs: seq<Payload>)
    ensures Encode(crc, ps + qs) == Encode(crc, ps) + Encode(crc, qs)
  {
    hide Frame;
    if ps == [] {
      assert ps + qs == qs;
    } else {
      EncodeConcat(crc, ps[1..], qs);
      assert (ps + qs)[1..] == ps[1..] + qs && (ps + qs)[0] == ps[0];
      assert Encode(crc, ps + qs) == Frame(crc, ps[0]) + Encode(crc, ps[1..] + qs);
    }
  }

  lemma EncodeOne(crc: Crc, p: Payload)
    ensures Encode(crc, [p]) == Frame(crc, p)
  {
    assert Encode(crc, [p][1..]) == [];
  }

  /** Records followed by anything at all scan to those records followed by whatever scans out of the rest. */
  lemma {:induction false} ScanAfterRecords(crc: Crc, ps: seq<Payload>, rest: seq<Byte>)
    ensures Scan(crc, Encode(crc, ps) + rest) == ps + Scan(crc, rest)
  {
    hide Frame, Head;
    var b := Encode(crc, ps) + rest;
    if ps == [] {
      assert b == rest;
    } else {
      var tail := Encode(crc, ps[1..]) + rest;
      assert b == Frame(crc, ps[0]) + tail;
      ScanOneFrame(crc, ps[0], tail);
      ScanAfterRecords(crc, ps[1..], rest);
      assert ps == [ps[0]] + ps[1..];
    }
  }

  lemma ScanInvertsEncode(crc: Crc, ps: seq<Payload>)
    ensures Scan(crc, Encode(crc, ps)) == ps
  {
    ScanAfterRecords(crc, ps, []);
    assert Encode(crc, ps) + [] == Encode(crc, ps);
  }

  /** For arbitrary bytes, re-encoding what was scanned gives back exactly the valid front part. */
  lemma {:induction false} EncodeInvertsScan(crc: Crc, b: seq<Byte>)
    ensures Encode(crc, Scan(crc, b)) <= b
    decreases |b|
  {
    if Head(crc, b).Some? {
      FrameOfHead(crc, b);
      var p := Head(crc, b).value;
      var rest := b[HEADER_SIZE + |p|..];
      EncodeInvertsScan(crc, rest);
      assert Scan(crc, b)[1..] == Scan(crc, rest);
    }
  }

  /** The scan is the only way to read bytes as records up to a point where no record starts. */
  lemma ScanIsUnique(crc: Crc, b: seq<Byte>, ps: seq<Payload>, rest: seq<Byte>)
    requires b == Encode(crc, ps) + rest && Head(crc, rest).None?
    ensures Scan(crc, b) == ps && |Encode(crc, Scan(crc, b))| == |b| - |rest|
  {
    ScanAfterRecords(crc, ps, rest);
  }

  /** A proper prefix of one frame never scans as a record, whatever the checksum function. */
  lemma TornFrameHasNoHead(crc: Crc, p: Payload, k: nat)
    requires k < HEADER_SIZE + |p|
    ensures Head(crc, Frame(crc, p)[..k]).None?
  {
    if k >= HEADER_SIZE {
      Uint32RoundTrip(|p|);
      assert Frame(crc, p)[..k][..4] == PutUint32(|p|);
    }
  }

  lemma ScanStops(crc: Crc, b: seq<Byte>)
    requires Head(crc, b).None?
    ensures Scan(crc, b) == []
  {
  }

  /** got is exactly the records of ps whose frames lie wholly within the first k bytes. */
  ghost predicate Contained(crc: Crc, got: seq<Payload>, ps: seq<Payload>, k: nat) {
    && got <= ps
    && |Encode(crc, got)| <= k
    && (|got| < |ps| ==> k < |Encode(crc, ps[..|got| + 1])|)
  }

  lemma ContainedCons(crc: Crc, got: seq<Payload>, ps: seq<Payload>, k: nat)
    requires ps != [] && HEADER_SIZE + |ps[0]| <= k && Contained(crc, got, ps[1..], k - HEADER_SIZE - |ps[0]|)
    ensures Contained(crc, [ps[0]] + got, ps, k)
  {
    hide Frame;
    assert ([ps[0]] + got)[1..] == got && ps == [ps[0]] + ps[1..];
    if |got| < |ps[1..]| {
      assert ps[..|got| + 2][1..] == ps[1..][..|got| + 1];
    }
  }

  /** Cutting a log at any byte keeps exactly the records that lie wholly before the cut. */
  lemma {:induction false} ScanOfTornLog(crc: Crc, ps: seq<Payload>, k: nat)
    requires k <= |Encode(crc, ps)|
    ensures Contained(crc, Scan(crc, Encode(crc, ps)[..k]), ps, k)
  {
    hide Head, Frame, Scan, Contained;
    var b := Encode(crc, ps)[..k];
    if ps == [] {
      ScanInvertsEncode(crc, ps);
      NoneContained(crc, ps, k);
    } else if k < HEADER_SIZE + |ps[0]| {
      assert b == Frame(crc, ps[0])[..k];
      TornFrameHasNoHead(crc, ps[0], k);
      ScanStops(crc, b);
      NoneContained(crc, ps, k);
    } else {
      var n := HEADER_SIZE + |ps[0]|;
      var tail := Encode(crc, ps[1..])[..k - n];
      assert b == Frame(crc, ps[0]) + tail;
      ScanOneFrame(crc, ps[0], tail);
      ScanOfTornLog(crc, ps[1..], k - n);
      ContainedCons(crc, Scan(crc, tail), ps, k);
    }
  }

  lemma NoneContained(crc: Crc, ps: seq<Payload>, k: nat)
    requires ps == [] || k < HEADER_SIZE + |ps[0]|
    ensures Contained(crc, [], ps, k)
  {
    if ps != [] {
      EncodeOne(crc, ps[0]);
      assert ps[..1] == [ps[0]];
    }
  }

  /** The contained records are at least those whose bytes were all kept. */
  lemma TornLogKeepsDurable(crc: Crc, ps: seq<Payload>, durable: nat, k: nat)
    requires durable <= |ps| && |Encode(crc, ps[..durable])| <= k <= |Encode(crc, ps)|
    ensures durable <= |Scan(crc, Encode(crc, ps)[..k])|
  {
    ScanOfTornLog(crc, ps, k);
    var n := |Scan(crc, Encode(crc, ps)[..k])|;
    if n < durable {
      assert ps[..durable] == ps[..n + 1] + ps[n + 1..durable];
      EncodeConcat(crc, ps[..n + 1], ps[n + 1..durable]);
    }
  }

  /** Truncating to the valid end and appending hides nothing from the next scan. */
  lemma RepairThenAppend(crc: Crc, b: seq<Byte>, qs: seq<Payload>)
    ensures var end := |Encode(crc, Scan(crc, b))|;
            end <= |b| && Scan(crc, b[..end] + Encode(crc, qs)) == Scan(crc, b) + qs
  {
    EncodeInvertsScan(crc, b);
    var ps := Scan(crc, b);
    assert b[..|Encode(crc, ps)|] == Encode(crc, ps);
    ScanAfterRecords(crc, ps, Encode(crc, qs));
    ScanInvertsEncode(crc, qs);
  }

  /** Reading one more record moves the boundary past its frame. */
  lemma ScanAdvances(crc: Crc, r: seq<Byte>, validEnd: nat, payloads: seq<Payload>)
    requires validEnd <= |r| && r[..validEnd] == Encode(crc, payloads)
    requires Head(crc, r[validEnd..]).Some?
    ensures var p := Head(crc, r[validEnd..]).value;
            var end := validEnd + HEADER_SIZE + |p|;
            && end <= |r| && r[..end] == Encode(crc, payloads + [p])
            && Scan(crc, r[validEnd..]) == [p] + Scan(crc, r[end..])
  {
    hide Frame, Head;
    var rest := r[validEnd..];
    var p := Head(crc, rest).value;
    var end := validEnd + HEADER_SIZE + |p|;
    FrameOfHead(crc, rest);
    assert rest[HEADER_SIZE + |p|..] == r[end..];
    ScanOneFrame(crc, p, r[end..]);
    EncodeConcat(crc, payloads, [p]);
    EncodeOne(crc, p);
    assert r[..end] == r[..validEnd] + Frame(crc, p);
  }

  /** One turn of the reading loop: a whole, verified record at the front of what is left, or the stopping point. */
  method ReadRecord(crc: Crc, r: seq<Byte>) returns (record: Option<Payload>)
    ensures record == Head(crc, r)
  {
    if |r| < HEADER_SIZE {
      return None;                               // no room for a header
    }
    var length := GetUint32(r[..4]);
    var want := GetUint32(r[4..8]);
    if length == 0 || length > MAX_RECORD_SIZE {
      return None;                               // no length Append would write
    }
    if |r| < HEADER_SIZE + length {
      return None;                               // not all of the payload is there
    }
    var payload := r[8..8 + length];
    if crc(r[..4] + payload) != want {
      return None;                               // the checksum does not match
    }
    record := Some(payload);
  }

  /** The reading loop: offsets and counts move together, and it stops at the first record it cannot verify. */
  method ScanRecords(crc: Crc, r: seq<Byte>) returns (validEnd: nat, count: nat, payloads: seq<Payload>)
    ensures payloads == Scan(crc, r)
    ensures count == |payloads|
    ensures validEnd <= |r| && r[..validEnd] == Encode(crc, payloads)
  {
    hide Frame, Head;
    validEnd, count, payloads := 0, 0, [];
    assert r[0..] == r;
    while true
      invariant validEnd <= |r| && count == |payloads|
      invariant r[..validEnd] == Encode(crc, payloads)
      invariant Scan(crc, r) == payloads + Scan(crc, r[validEnd..])
      decreases |r| - validEnd
    {
      var record := ReadRecord(crc, r[validEnd..]);
      if record.None? {
        return;
      }
      ScanAdvances(crc, r, validEnd, payloads);
      payloads := payloads + [record.value];
      validEnd := validEnd + HEADER_SIZE + |record.value|;
      count := count + 1;
    }
  }
}
