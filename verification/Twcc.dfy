/** Transport-wide congestion control: the arrival recorder and the feedback packet it produces. */
module Twcc {
  import opened Words

  const CAPACITY := 8192
  const RTCP_PT_RTPFB: u8 := 205

  datatype ArrivalEntry = ArrivalEntry(twccSeq: u16, arrival: Instant)

  datatype PacketStatus = NotReceived | SmallDelta | LargeDelta

  /** The recorder's state as a value. */
  datatype Recording = Recording(
    arrivals: seq<Option<ArrivalEntry>>, pendingBaseSeq: u16, maxSeq: u16, started: bool, count: nat,
    baseTime: Option<Instant>, fbPktCount: u8)

  ghost predicate Valid(r: Recording) {
    |r.arrivals| == CAPACITY && (r.started ==> r.baseTime.Some?)
  }

  function Fresh(): Recording {
    Recording(seq(CAPACITY, _ => None), 0, 0, false, 0, None, 0)
  }

  // ---------------------------------------------------------------- recording

  function Record(r: Recording, twccSeq: u16, arrival: Instant): Recording
    requires |r.arrivals| == CAPACITY
  {
    var stored := r.(arrivals := r.arrivals[twccSeq % CAPACITY := Some(ArrivalEntry(twccSeq, arrival))],
                     count := r.count + 1);
    if !r.started then
      stored.(started := true, pendingBaseSeq := twccSeq, maxSeq := twccSeq, baseTime := Some(arrival))
    else
      var diff := Wrap16(twccSeq - r.maxSeq);
      if 0 < diff < 0x8000 then stored.(maxSeq := twccSeq) else stored
  }

  function Get(r: Recording, twccSeq: u16): Option<ArrivalEntry>
    requires |r.arrivals| == CAPACITY
  {
    var e := r.arrivals[twccSeq % CAPACITY];
    if e.Some? && e.value.twccSeq == twccSeq then e else None
  }

  function PendingCount(r: Recording): u16 {
    if !r.started then 0 else Wrap16(Wrap16(r.maxSeq - r.pendingBaseSeq) + 1)
  }

  // ---------------------------------------------------------------- statuses and deltas

  /** The arrivals of the first `n` pending sequence numbers, in sequence order. */
  function Received(r: Recording, n: nat): seq<Instant>
    requires |r.arrivals| == CAPACITY
  {
    if n == 0 then []
    else
      var e := Get(r, Wrap16(r.pendingBaseSeq + n - 1));
      if e.Some? then Received(r, n - 1) + [e.value.arrival] else Received(r, n - 1)
  }

  /** Whole 250 microsecond units in a nanosecond duration, via whole microseconds. */
  function Units(ns: nat): nat {
    ns / 1000 / 250
  }

  /** The distance from `a` to `b` in units, truncated toward zero. */
  function Delta(a: Instant, b: Instant): int {
    if b >= a then Units(b - a) else 0 - Units(a - b)
  }

  /** The delta of the k-th received packet: against the reference time for the first, else the one before. */
  function DeltaAt(base: Instant, arrivals: seq<Instant>, k: nat): int
    requires k < |arrivals|
  {
    if k == 0 then Units(SatSub(arrivals[0], base)) - Units(SatSub(arrivals[0], base)) / 256 * 256
    else Delta(arrivals[k - 1], arrivals[k])
  }

  function Deltas(base: Instant, arrivals: seq<Instant>): (ds: seq<int>)
    ensures |ds| == |arrivals|
    ensures forall k :: 0 <= k < |ds| ==> ds[k] == DeltaAt(base, arrivals, k)
  {
    seq(|arrivals|, k requires 0 <= k < |arrivals| => DeltaAt(base, arrivals, k))
  }

  function StatusOf(delta: int): PacketStatus {
    if 0 <= delta <= 255 then SmallDelta else LargeDelta
  }

  /** One status for each of the first `n` pending sequence numbers. */
  function Statuses(r: Recording, base: Instant, n: nat): (ss: seq<PacketStatus>)
    requires |r.arrivals| == CAPACITY
    ensures |ss| == n
  {
    if n == 0 then []
    else if Get(r, Wrap16(r.pendingBaseSeq + n - 1)).Some? then
      var arrivals := Received(r, n);
      Statuses(r, base, n - 1) + [StatusOf(DeltaAt(base, arrivals, |arrivals| - 1))]
    else Statuses(r, base, n - 1) + [NotReceived]
  }

  // ---------------------------------------------------------------- chunks

  function Code(s: PacketStatus): nat {
    match s
    case NotReceived => 0
    case SmallDelta => 1
    case LargeDelta => 2
  }

  function StatusAt(ss: seq<PacketStatus>, i: nat): PacketStatus {
    if i < |ss| then ss[i] else NotReceived
  }

  /** Two type bits (a status vector of two-bit symbols), then the first `slots` symbols from position `i`. */
  function Symbols(ss: seq<PacketStatus>, i: nat, slots: nat): nat {
    if slots == 0 then 3 else Symbols(ss, i, slots - 1) * 4 + Code(StatusAt(ss, i + slots - 1))
  }

  lemma SymbolsBound(ss: seq<PacketStatus>, i: nat)
    ensures 0xC000 <= Symbols(ss, i, 7) < 0x1_0000
  {
    assert 0xC <= Symbols(ss, i, 1) < 0x10;
    assert 0xC0 <= Symbols(ss, i, 3) < 0x100;
    assert 0xC00 <= Symbols(ss, i, 5) < 0x1000;
  }

  /** A status vector chunk of seven symbols. */
  function Chunk(ss: seq<PacketStatus>, i: nat): (c: u16)
    ensures c >= 0xC000
  {
    SymbolsBound(ss, i);
    Symbols(ss, i, 7)
  }

  /** The chunks for the statuses from position `i` on. */
  function Chunks(ss: seq<PacketStatus>, i: nat): (cs: seq<u16>)
    ensures |cs| == (SatSub(|ss|, i) + 6) / 7
    decreases SatSub(|ss|, i)
  {
    if i >= |ss| then [] else [Chunk(ss, i)] + Chunks(ss, i + 7)
  }

  /** One chunk: each symbol is or-ed into its place. */
  method EncodeChunk(ss: seq<PacketStatus>, i: nat) returns (chunk: u16)
    ensures chunk == Chunk(ss, i)
  {
    var bits: nat := 0xC000;
    assert Pow2(4) == 16 && Pow2(8) == 256 && Pow2(12) == 4096 && Pow2(14) == 16384;
    for slot := 0 to 7
      invariant bits == Symbols(ss, i, slot) * Pow2(14 - 2 * slot)
    {
      var status := StatusAt(ss, i + slot);
      var shift := 12 - slot * 2;
      SlotStep(Symbols(ss, i, slot), slot, Code(status));
      bits := Or(bits, Code(status) * Pow2(shift));
    }
    SymbolsBound(ss, i);
    chunk := bits;
  }

  method EncodeStatusChunks(ss: seq<PacketStatus>) returns (chunks: seq<u16>)
    ensures chunks == Chunks(ss, 0)
  {
    chunks := [];
    var i := 0;
    while i < |ss|
      invariant chunks + Chunks(ss, i) == Chunks(ss, 0)
    {
      var chunk := EncodeChunk(ss, i);
      assert chunks + Chunks(ss, i) == chunks + [chunk] + Chunks(ss, i + 7);
      chunks := chunks + [chunk];
      i := i + 7;
    }
  }

  /** Shifting a symbol into its slot and or-ing it appends two bits. */
  lemma SlotStep(prefix: nat, slot: nat, code: nat)
    requires slot < 7 && code < 4
    ensures Or(prefix * Pow2(14 - 2 * slot), code * Pow2(12 - 2 * slot)) == (prefix * 4 + code) * Pow2(12 - 2 * slot)
  {
    var p := Pow2(12 - 2 * slot);
    assert Pow2(14 - 2 * slot) == 2 * Pow2(13 - 2 * slot) == 4 * p;
    assert code * p < 4 * p by {
      Scaled(code, p);
    }
    OrShifted(prefix, 14 - 2 * slot, code * p);
    Distribute(prefix, p, code);
  }

  lemma Scaled(code: nat, p: nat)
    requires code < 4 && p > 0
    ensures code * p < 4 * p
  {
  }

  lemma Distribute(prefix: nat, p: nat, code: nat)
    ensures prefix * (4 * p) + code * p == (prefix * 4 + code) * p
  {
  }

  // ---------------------------------------------------------------- receive deltas

  function Clamp(d: int, lo: int, hi: int): int {
    Min(Max(d, lo), hi)
  }

  /** One byte for a small delta, two's complement for a large one, both clamped. */
  function DeltaField(s: PacketStatus, d: int): seq<u8> {
    match s
    case NotReceived => []
    case SmallDelta => [Clamp(d, 0, 255)]
    case LargeDelta => Be16(Wrap16(Clamp(d, -8192, 8191)))
  }

  /** The delta bytes for `ss`, taking one delta per received status while there are any. */
  function DeltaBytes(ss: seq<PacketStatus>, ds: seq<int>): seq<u8> {
    if ss == [] then []
    else if ss[0].NotReceived? || ds == [] then DeltaBytes(ss[1..], ds)
    else DeltaField(ss[0], ds[0]) + DeltaBytes(ss[1..], ds[1..])
  }

  method EncodeRecvDeltas(ss: seq<PacketStatus>, ds: seq<int>) returns (bytes: seq<u8>)
    ensures bytes == DeltaBytes(ss, ds)
  {
    bytes := [];
    var next := 0;
    for i := 0 to |ss|
      invariant next <= |ds|
      invariant bytes + DeltaBytes(ss[i..], ds[next..]) == DeltaBytes(ss, ds)
    {
      DeltaBytesStep(ss, ds, i, next);
      ghost var rest := DeltaBytes(ss[i + 1..], ds[Min(next + 1, |ds|)..]);
      match ss[i]
      case SmallDelta =>
        if next < |ds| {
          var d: u8 := Clamp(ds[next], 0, 255);
          assert bytes + ([d] + rest) == (bytes + [d]) + rest;
          bytes := bytes + [d];
          next := next + 1;
        }
      case LargeDelta =>
        if next < |ds| {
          var d := Be16(Wrap16(Clamp(ds[next], -8192, 8191)));
          assert bytes + (d + rest) == (bytes + d) + rest;
          bytes := bytes + d;
          next := next + 1;
        }
      case NotReceived =>
    }
  }

  lemma DeltaBytesStep(ss: seq<PacketStatus>, ds: seq<int>, i: nat, next: nat)
    requires i < |ss| && next <= |ds|
    ensures DeltaBytes(ss[i..], ds[next..]) ==
            if ss[i].NotReceived? || next == |ds| then DeltaBytes(ss[i + 1..], ds[next..])
            else DeltaField(ss[i], ds[next]) + DeltaBytes(ss[i + 1..], ds[next + 1..])
  {
    assert ss[i..][1..] == ss[i + 1..];
    assert next < |ds| ==> ds[next..][1..] == ds[next + 1..];
  }

  // ---------------------------------------------------------------- the packet

  /** The fields of a feedback packet, encoded. */
  datatype Payload = Payload(
    mediaSsrc: u32, baseSeq: u16, statusCount: u16, refTime24: nat, fbPktCount: u8,
    chunks: seq<u16>, deltaBytes: seq<u8>)

  function ChunkBytes(cs: seq<u16>): (b: seq<u8>)
    ensures |b| == 2 * |cs|
  {
    if cs == [] then [] else Be16(cs[0]) + ChunkBytes(cs[1..])
  }

  /** The length the builder reckons with; it counts four bytes more than the fields take. */
  function BodyLen(f: Payload): nat {
    12 + (8 + 2 * |f.chunks| + |f.deltaBytes|)
  }

  function Header(f: Payload): (h: seq<u8>)
    requires f.refTime24 < 0x100_0000
    ensures |h| == 20
  {
    [if Ceil4(BodyLen(f)) > BodyLen(f) then 0xAF else 0x8F, RTCP_PT_RTPFB] + Be16(Wrap16(Ceil4(BodyLen(f)) / 4))
    + Be32(1) + Be32(f.mediaSsrc) + Be16(f.baseSeq) + Be16(f.statusCount)
    + [f.refTime24 / 0x1_0000, f.refTime24 / 0x100 % 0x100, f.refTime24 % 0x100, f.fbPktCount]
  }

  /** Trailing bytes: zeros, the last one holding the padding count when the padding bit is set. */
  function Trailer(f: Payload): (t: seq<u8>)
    ensures |t| == 4 + (Ceil4(BodyLen(f)) - BodyLen(f))
  {
    var pad := Ceil4(BodyLen(f)) - BodyLen(f);
    Zeros(3 + pad) + [pad]
  }

  function Assemble(f: Payload): seq<u8>
    requires f.refTime24 < 0x100_0000
  {
    Header(f) + ChunkBytes(f.chunks) + f.deltaBytes + Trailer(f)
  }

  method AssemblePacket(f: Payload) returns (buf: seq<u8>)
    requires f.refTime24 < 0x100_0000
    ensures buf == Assemble(f)
  {
    var payloadLen := 8 + |f.chunks| * 2 + |f.deltaBytes|;
    var bodyLen := 12 + payloadLen;
    var paddedBody := Ceil4(bodyLen);
    var needPadding := paddedBody > bodyLen;
    var totalLen := 4 + paddedBody;
    buf := [if needPadding then 0xAF else 0x8F, RTCP_PT_RTPFB];
    buf := buf + Be16(Wrap16(paddedBody / 4));
    buf := buf + Be32(1) + Be32(f.mediaSsrc) + Be16(f.baseSeq) + Be16(f.statusCount);
    buf := buf + [f.refTime24 / 0x1_0000, f.refTime24 / 0x100 % 0x100, f.refTime24 % 0x100, f.fbPktCount];
    assert buf == Header(f);
    for i := 0 to |f.chunks|
      invariant buf + ChunkBytes(f.chunks[i..]) == Header(f) + ChunkBytes(f.chunks)
    {
      assert f.chunks[i..][1..] == f.chunks[i + 1..];
      assert buf + ChunkBytes(f.chunks[i..]) == buf + Be16(f.chunks[i]) + ChunkBytes(f.chunks[i + 1..]);
      buf := buf + Be16(f.chunks[i]);
    }
    buf := buf + f.deltaBytes;
    ghost var content := buf;
    assert content == Header(f) + ChunkBytes(f.chunks) + f.deltaBytes;
    while |buf| < totalLen
      invariant |buf| <= totalLen
      invariant buf == content + Zeros(|buf| - |content|)
    {
      buf := buf + [0];
    }
    var padCount := totalLen - (4 + bodyLen);
    if needPadding && padCount > 0 {
      buf := buf[|buf| - 1 := padCount];
    }
    assert buf == content + Trailer(f);
  }

  // ---------------------------------------------------------------- building feedback

  function RefTimeRaw(base: Instant, first: Instant): nat {
    Units(SatSub(first, base)) / 256
  }

  /** The pending window is empty, too wide, or without a single arrival still on record. */
  predicate NothingToReport(r: Recording)
    requires Valid(r)
  {
    !r.started || PendingCount(r) == 0 || PendingCount(r) > CAPACITY || Received(r, PendingCount(r)) == []
  }

  function FeedbackPayload(r: Recording, mediaSsrc: u32): Payload
    requires Valid(r) && !NothingToReport(r)
  {
    var n, base := PendingCount(r), r.baseTime.value;
    var arrivals := Received(r, n);
    var ss := Statuses(r, base, n);
    Payload(mediaSsrc, r.pendingBaseSeq, n, RefTimeRaw(base, arrivals[0]) % 0x100_0000, r.fbPktCount,
            Chunks(ss, 0), DeltaBytes(ss, Deltas(base, arrivals)))
  }

  function BuildFeedback(r: Recording, mediaSsrc: u32): Option<seq<u8>>
    requires Valid(r)
  {
    if NothingToReport(r) then None else Some(Assemble(FeedbackPayload(r, mediaSsrc)))
  }

  function AfterBuild(r: Recording): Recording
    requires Valid(r)
  {
    if r.started && PendingCount(r) > CAPACITY then r.(pendingBaseSeq := Wrap16(r.maxSeq - 100))
    else if NothingToReport(r) then r
    else r.(pendingBaseSeq := Wrap16(r.pendingBaseSeq + PendingCount(r)), fbPktCount := (r.fbPktCount + 1) % 0x100)
  }

  class TwccRecorder {
    const arrivals: array<Option<ArrivalEntry>>
    var pendingBaseSeq: u16
    var maxSeq: u16
    var started: bool
    var count: nat
    var baseTime: Option<Instant>
    var fbPktCount: u8

    ghost predicate Ready()
      reads this, arrivals
    {
      arrivals.Length == CAPACITY && (started ==> baseTime.Some?)
    }

    ghost function View(): Recording
      reads this, arrivals
    {
      Recording(arrivals[..], pendingBaseSeq, maxSeq, started, count, baseTime, fbPktCount)
    }

    constructor ()
      ensures Ready() && fresh(arrivals) && View() == Fresh()
    {
      arrivals := new Option<ArrivalEntry>[CAPACITY](_ => None);
      pendingBaseSeq, maxSeq, started, count, baseTime, fbPktCount := 0, 0, false, 0, None, 0;
    }

    method RecordArrival(twccSeq: u16, arrival: Instant)
      requires Ready()
      modifies this, arrivals
      ensures Ready() && View() == Record(old(View()), twccSeq, arrival)
    {
      var idx := twccSeq % CAPACITY;
      arrivals[idx] := Some(ArrivalEntry(twccSeq, arrival));
      count := count + 1;
      if !started {
        started := true;
        pendingBaseSeq := twccSeq;
        maxSeq := twccSeq;
        baseTime := Some(arrival);
      } else {
        var diff := Wrap16(twccSeq - maxSeq);
        if diff > 0 && diff < 0x8000 {
          maxSeq := twccSeq;
        }
      }
    }

    method Lookup(twccSeq: u16) returns (entry: Option<ArrivalEntry>)
      requires Ready()
      ensures entry == Get(View(), twccSeq)
    {
      entry := arrivals[twccSeq % CAPACITY];
      if entry.Some? && entry.value.twccSeq != twccSeq {
        entry := None;
      }
    }

    method Pending() returns (n: u16)
      ensures n == PendingCount(View())
    {
      n := 0;
      if started {
        n := Wrap16(Wrap16(maxSeq - pendingBaseSeq) + 1);
      }
    }

    /** Walks the pending window once, collecting a status per number and a delta per arrival. */
    method Collect(n: nat) returns (statuses: seq<PacketStatus>, deltas: seq<int>, first: Option<Instant>)
      requires Ready() && baseTime.Some?
      ensures statuses == Statuses(View(), baseTime.value, n)
      ensures deltas == Deltas(baseTime.value, Received(View(), n))
      ensures first == if Received(View(), n) == [] then None else Some(Received(View(), n)[0])
    {
      ghost var r, base := View(), baseTime.value;
      statuses, deltas, first := [], [], None;
      var prev: Option<Instant> := None;
      for i := 0 to n
        invariant statuses == Statuses(r, base, i)
        invariant deltas == Deltas(base, Received(r, i))
        invariant first == if Received(r, i) == [] then None else Some(Received(r, i)[0])
        invariant prev == if Received(r, i) == [] then None else Some(Received(r, i)[|Received(r, i)| - 1])
      {
        var entry := Lookup(Wrap16(pendingBaseSeq + i));
        if entry.Some? {
          var arrival := entry.value.arrival;
          ghost var before := Received(r, i);
          assert Received(r, i + 1) == before + [arrival];
          if first.None? {
            first := Some(arrival);
          }
          var delta;
          if prev.Some? {
            if arrival >= prev.value {
              delta := (arrival - prev.value) / 1000 / 250;
            } else {
              delta := 0 - (prev.value - arrival) / 1000 / 250;
            }
          } else {
            var offset := Units(SatSub(arrival, baseTime.value));
            delta := offset - offset / 256 * 256;
          }
          assert delta == DeltaAt(base, before + [arrival], |before|);
          var status := if delta >= 0 && delta <= 255 then SmallDelta else LargeDelta;
          DeltasAppend(base, before, arrival);
          statuses := statuses + [status];
          deltas := deltas + [delta];
          prev := Some(arrival);
        } else {
          statuses := statuses + [NotReceived];
        }
      }
    }

    method BuildTwccFeedback(mediaSsrc: u32) returns (packet: Option<seq<u8>>)
      requires Ready()
      modifies this
      ensures Ready() && View() == AfterBuild(old(View()))
      ensures packet == BuildFeedback(old(View()), mediaSsrc)
    {
      var n := Pending();
      if !started || n == 0 {
        return None;
      }
      if n > CAPACITY {
        pendingBaseSeq := Wrap16(maxSeq - 100);
        return None;
      }
      var statuses, deltas, first := Collect(n);
      if first.None? {
        return None;
      }
      var refTimeRaw := Units(SatSub(first.value, baseTime.value)) / 256;
      var chunks := EncodeStatusChunks(statuses);
      var deltaBytes := EncodeRecvDeltas(statuses, deltas);
      var buf := AssemblePacket(Payload(mediaSsrc, pendingBaseSeq, n, refTimeRaw % 0x100_0000, fbPktCount,
                                        chunks, deltaBytes));
      fbPktCount := (fbPktCount + 1) % 0x100;
      pendingBaseSeq := Wrap16(pendingBaseSeq + n);
      return Some(buf);
    }
  }

  lemma DeltasAppend(base: Instant, arrivals: seq<Instant>, next: Instant)
    ensures Deltas(base, arrivals + [next]) ==
            Deltas(base, arrivals) + [DeltaAt(base, arrivals + [next], |arrivals|)]
  {
    var all := arrivals + [next];
    assert forall k :: 0 <= k < |arrivals| ==> DeltaAt(base, all, k) == DeltaAt(base, arrivals, k);
  }
}
