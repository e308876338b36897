/** A receiver of transport-wide feedback, written from section 3.1 of
    draft-holmer-rmcat-transport-wide-cc-extensions-01, and what it learns from the server's packets. */
module TwccDecoder {
  import opened Words
  import opened Twcc

  datatype Feedback = Feedback(
    senderSsrc: u32, mediaSsrc: u32, baseSeq: u16, refTime24: nat, fbPktCount: u8,
    statuses: seq<PacketStatus>, deltas: seq<int>)

  // ---------------------------------------------------------------- the decoder

  /** The symbols of a packet chunk: a run length, fourteen one-bit or seven two-bit symbols. */
  function ChunkSymbols(c: u16): seq<nat> {
    if c < 0x8000 then seq(c % 0x2000, _ => c / 0x2000)
    else if c < 0xC000 then
      [c / 8192 % 2, c / 4096 % 2, c / 2048 % 2, c / 1024 % 2, c / 512 % 2, c / 256 % 2, c / 128 % 2,
       c / 64 % 2, c / 32 % 2, c / 16 % 2, c / 8 % 2, c / 4 % 2, c / 2 % 2, c % 2]
    else [c / 4096 % 4, c / 1024 % 4, c / 256 % 4, c / 64 % 4, c / 16 % 4, c / 4 % 4, c % 4]
  }

  /** Symbol 3 is reserved. */
  function ReadStatus(symbol: nat): Option<PacketStatus> {
    if symbol == 0 then Some(NotReceived)
    else if symbol == 1 then Some(SmallDelta)
    else if symbol == 2 then Some(LargeDelta)
    else None
  }

  function ReadStatuses(symbols: seq<nat>): Option<seq<PacketStatus>> {
    if symbols == [] then Some([])
    else
      var head, tail := ReadStatus(symbols[0]), ReadStatuses(symbols[1..]);
      if head.Some? && tail.Some? then Some([head.value] + tail.value) else None
  }

  datatype StatusPart = StatusPart(statuses: seq<PacketStatus>, rest: seq<u8>)

  /** Reads chunks off the front of `b` until `count` statuses are known. */
  function DecodeChunks(b: seq<u8>, count: nat): Option<StatusPart>
    decreases |b|
  {
    if count == 0 then Some(StatusPart([], b))
    else if |b| < 2 then None
    else
      var symbols := ChunkSymbols(U16At(b, 0));
      var n := Min(|symbols|, count);
      var head, tail := ReadStatuses(symbols[..n]), DecodeChunks(b[2..], count - n);
      if head.Some? && tail.Some? then Some(StatusPart(head.value + tail.value.statuses, tail.value.rest)) else None
  }

  /** Reads one delta per received status off the front of `b`. */
  function DecodeDeltas(ss: seq<PacketStatus>, b: seq<u8>): Option<seq<int>> {
    if ss == [] then Some([])
    else if ss[0].NotReceived? then DecodeDeltas(ss[1..], b)
    else
      var width := if ss[0].SmallDelta? then 1 else 2;
      if |b| < width then None
      else
        var raw := if width == 1 then b[0] else U16At(b, 0);
        var d := if width == 2 && raw >= 0x8000 then raw - 0x1_0000 else raw;
        var tail := DecodeDeltas(ss[1..], b[width..]);
        if tail.Some? then Some([d] + tail.value) else None
  }

  /** The end of the contents: the padding count in the last byte is cut off when the padding bit is set. */
  function ContentEnd(p: seq<u8>): int
    requires |p| > 0
  {
    if p[0] / 0x20 % 2 == 1 then |p| - p[|p| - 1] else |p|
  }

  /** Chunks for `count` statuses, then their deltas; what follows is ignored. */
  function DecodeBody(b: seq<u8>, count: nat): Option<(seq<PacketStatus>, seq<int>)> {
    var part := DecodeChunks(b, count);
    if part.None? then None
    else
      var deltas := DecodeDeltas(part.value.statuses, part.value.rest);
      if deltas.None? then None else Some((part.value.statuses, deltas.value))
  }

  function Decode(p: seq<u8>): Option<Feedback> {
    if |p| < 20 || p[0] / 0x40 != 2 || p[0] % 0x20 != 15 || p[1] != RTCP_PT_RTPFB then None
    else if |p| != 4 * (U16At(p, 2) + 1) || ContentEnd(p) < 20 then None
    else
      var body := DecodeBody(p[20..ContentEnd(p)], U16At(p, 14));
      if body.None? then None
      else Some(Feedback(U32At(p, 4), U32At(p, 8), U16At(p, 12),
                         p[16] as int * 0x1_0000 + p[17] as int * 0x100 + p[18], p[19],
                         body.value.0, body.value.1))
  }

  // ---------------------------------------------------------------- chunks decode

  /** Dropping the last `7 - slots` symbols of a chunk leaves the first `slots`. */
  lemma ChunkPrefix(ss: seq<PacketStatus>, i: nat)
    ensures var c := Symbols(ss, i, 7);
            && c / 4 == Symbols(ss, i, 6) && c / 16 == Symbols(ss, i, 5) && c / 64 == Symbols(ss, i, 4)
            && c / 256 == Symbols(ss, i, 3) && c / 1024 == Symbols(ss, i, 2) && c / 4096 == Symbols(ss, i, 1)
  {
    assert Symbols(ss, i, 7) / 4 == Symbols(ss, i, 6);
    assert Symbols(ss, i, 6) / 4 == Symbols(ss, i, 5);
    assert Symbols(ss, i, 5) / 4 == Symbols(ss, i, 4);
    assert Symbols(ss, i, 4) / 4 == Symbols(ss, i, 3);
    assert Symbols(ss, i, 3) / 4 == Symbols(ss, i, 2);
    assert Symbols(ss, i, 2) / 4 == Symbols(ss, i, 1);
  }

  lemma ChunkSymbolsAre(ss: seq<PacketStatus>, i: nat, j: nat)
    requires j < 7
    ensures ChunkSymbols(Chunk(ss, i))[j] == Code(StatusAt(ss, i + j))
  {
    ChunkPrefix(ss, i);
    LastSymbol(ss, i, j);
    var c := Chunk(ss, i);
    assert ChunkSymbols(c) == [c / 4096 % 4, c / 1024 % 4, c / 256 % 4, c / 64 % 4, c / 16 % 4, c / 4 % 4, c % 4];
  }

  lemma LastSymbol(ss: seq<PacketStatus>, i: nat, j: nat)
    ensures Symbols(ss, i, j + 1) % 4 == Code(StatusAt(ss, i + j))
  {
  }

  lemma {:induction false} CodesRead(ss: seq<PacketStatus>, symbols: seq<nat>)
    requires |symbols| == |ss| && forall j :: 0 <= j < |ss| ==> symbols[j] == Code(ss[j])
    ensures ReadStatuses(symbols) == Some(ss)
  {
    if ss != [] {
      CodesRead(ss[1..], symbols[1..]);
      assert ss == [ss[0]] + ss[1..];
    }
  }

  lemma ChunkReads(ss: seq<PacketStatus>, i: nat, n: nat)
    requires i + n <= |ss| && n <= 7
    ensures |ChunkSymbols(Chunk(ss, i))| == 7 && ReadStatuses(ChunkSymbols(Chunk(ss, i))[..n]) == Some(ss[i..i + n])
  {
    var symbols := ChunkSymbols(Chunk(ss, i));
    assert |symbols| == 7;
    forall j | 0 <= j < n
      ensures symbols[..n][j] == Code(ss[i..i + n][j])
    {
      ChunkSymbolsAre(ss, i, j);
    }
    CodesRead(ss[i..i + n], symbols[..n]);
  }

  lemma ChunkInFront(ss: seq<PacketStatus>, i: nat, rest: seq<u8>)
    requires i < |ss|
    ensures var b := ChunkBytes(Chunks(ss, i)) + rest;
            |b| >= 2 && U16At(b, 0) == Chunk(ss, i) && b[2..] == ChunkBytes(Chunks(ss, i + 7)) + rest
  {
    var b, c := ChunkBytes(Chunks(ss, i)) + rest, Chunk(ss, i);
    assert Chunks(ss, i)[1..] == Chunks(ss, i + 7);
    AppendAssociative(Be16(c), ChunkBytes(Chunks(ss, i + 7)), rest);
    assert b[0..2] == Be16(c);
    Be16At(b, 0, c);
  }

  lemma {:induction false} ChunksDecode(ss: seq<PacketStatus>, i: nat, rest: seq<u8>)
    requires i <= |ss|
    ensures DecodeChunks(ChunkBytes(Chunks(ss, i)) + rest, |ss| - i) == Some(StatusPart(ss[i..], rest))
    decreases |ss| - i
  {
    var b := ChunkBytes(Chunks(ss, i)) + rest;
    if i == |ss| {
      assert b == rest;
    } else {
      var n := Min(7, |ss| - i);
      ChunkInFront(ss, i, rest);
      ChunkReads(ss, i, n);
      if n == 7 {
        ChunksDecode(ss, i + 7, rest);
      }
      assert ss[i..] == ss[i..i + n] + ss[i + n..];
    }
  }

  // ---------------------------------------------------------------- deltas decode

  /** The received statuses of `ss` are those of `ds`, one by one. */
  ghost predicate Matches(ss: seq<PacketStatus>, ds: seq<int>) {
    if ss == [] then ds == []
    else if ss[0].NotReceived? then Matches(ss[1..], ds)
    else ds != [] && ss[0] == StatusOf(ds[0]) && Matches(ss[1..], ds[1..])
  }

  function Clamped(ds: seq<int>): (cs: seq<int>)
    ensures |cs| == |ds| && forall k :: 0 <= k < |ds| ==> cs[k] == Clamp(ds[k], -8192, 8191)
  {
    seq(|ds|, k requires 0 <= k < |ds| => Clamp(ds[k], -8192, 8191))
  }

  lemma {:induction false} DeltasDecode(ss: seq<PacketStatus>, ds: seq<int>, rest: seq<u8>)
    requires Matches(ss, ds)
    ensures DecodeDeltas(ss, DeltaBytes(ss, ds) + rest) == Some(Clamped(ds))
  {
    var b := DeltaBytes(ss, ds) + rest;
    if ss == [] {
      assert Clamped(ds) == [];
    } else if ss[0].NotReceived? {
      DeltasDecode(ss[1..], ds, rest);
    } else {
      DeltasDecode(ss[1..], ds[1..], rest);
      DeltaInFront(ss, ds, rest);
      ClampedFirst(ds);
    }
  }

  lemma ClampedFirst(ds: seq<int>)
    requires ds != []
    ensures Clamped(ds) == [Clamp(ds[0], -8192, 8191)] + Clamped(ds[1..])
  {
  }

  lemma DeltaInFront(ss: seq<PacketStatus>, ds: seq<int>, rest: seq<u8>)
    requires ss != [] && !ss[0].NotReceived? && ds != []
    ensures var b, field := DeltaBytes(ss, ds) + rest, DeltaField(ss[0], ds[0]);
            && |field| <= |b| && b[..|field|] == field && b[|field|..] == DeltaBytes(ss[1..], ds[1..]) + rest
            && (ss[0].LargeDelta? ==> U16At(b, 0) == Wrap16(Clamp(ds[0], -8192, 8191)))
  {
    var b, field := DeltaBytes(ss, ds) + rest, DeltaField(ss[0], ds[0]);
    AppendAssociative(field, DeltaBytes(ss[1..], ds[1..]), rest);
    if ss[0].LargeDelta? {
      assert b[0..2] == field;
      Be16At(b, 0, Wrap16(Clamp(ds[0], -8192, 8191)));
    }
  }

  lemma {:induction false} MatchesAppend(ss: seq<PacketStatus>, ds: seq<int>, d: int)
    requires Matches(ss, ds)
    ensures Matches(ss + [NotReceived], ds) && Matches(ss + [StatusOf(d)], ds + [d])
  {
    if ss == [] {
      assert Matches([], []);
    } else {
      assert (ss + [NotReceived])[1..] == ss[1..] + [NotReceived];
      assert (ss + [StatusOf(d)])[1..] == ss[1..] + [StatusOf(d)];
      if ss[0].NotReceived? {
        MatchesAppend(ss[1..], ds, d);
      } else {
        MatchesAppend(ss[1..], ds[1..], d);
        assert (ds + [d])[1..] == ds[1..] + [d];
      }
    }
  }

  lemma {:induction false} StatusesMatchDeltas(r: Recording, base: Instant, n: nat)
    requires |r.arrivals| == CAPACITY
    ensures Matches(Statuses(r, base, n), Deltas(base, Received(r, n)))
  {
    if n > 0 {
      StatusesMatchDeltas(r, base, n - 1);
      var before := Received(r, n - 1);
      var e := Get(r, Wrap16(r.pendingBaseSeq + n - 1));
      if e.Some? {
        DeltasAppend(base, before, e.value.arrival);
        MatchesAppend(Statuses(r, base, n - 1), Deltas(base, before),
                      DeltaAt(base, before + [e.value.arrival], |before|));
      } else {
        MatchesAppend(Statuses(r, base, n - 1), Deltas(base, before), 0);
      }
    }
  }

  lemma {:induction false} StatusesMeanReceived(r: Recording, base: Instant, n: nat, i: nat)
    requires |r.arrivals| == CAPACITY && i < n
    ensures Statuses(r, base, n)[i].NotReceived? <==> Get(r, Wrap16(r.pendingBaseSeq + i)).None?
  {
    if i < n - 1 {
      StatusesMeanReceived(r, base, n - 1, i);
    }
  }

  // ---------------------------------------------------------------- the packet decodes

  lemma {:induction false} DeltaBytesBound(ss: seq<PacketStatus>, ds: seq<int>)
    ensures |DeltaBytes(ss, ds)| <= 2 * |ss|
  {
    if ss != [] {
      DeltaBytesBound(ss[1..], ds);
      if ds != [] {
        DeltaBytesBound(ss[1..], ds[1..]);
      }
    }
  }

  /** `p` carries the header fields of `f`. */
  ghost predicate HasHeader(p: seq<u8>, f: Payload) {
    && |p| >= 20 && f.refTime24 < 0x100_0000
    && p[0] == (if Ceil4(BodyLen(f)) > BodyLen(f) then 0xAF else 0x8F) && p[1] == RTCP_PT_RTPFB
    && U16At(p, 2) == Wrap16(Ceil4(BodyLen(f)) / 4) && U32At(p, 4) == 1 && U32At(p, 8) == f.mediaSsrc
    && U16At(p, 12) == f.baseSeq && U16At(p, 14) == f.statusCount
    && p[16] as int * 0x1_0000 + p[17] as int * 0x100 + p[18] == f.refTime24 && p[19] == f.fbPktCount
  }

  lemma HeaderFields(f: Payload, tail: seq<u8>)
    requires f.refTime24 < 0x100_0000
    ensures HasHeader(Header(f) + tail, f)
  {
    var p := Header(f) + tail;
    assert p[2..4] == Be16(Wrap16(Ceil4(BodyLen(f)) / 4));
    assert p[4..8] == Be32(1) && p[8..12] == Be32(f.mediaSsrc);
    assert p[12..14] == Be16(f.baseSeq) && p[14..16] == Be16(f.statusCount);
    Be16At(p, 2, Wrap16(Ceil4(BodyLen(f)) / 4));
    Be32At(p, 4, 1);
    Be32At(p, 8, f.mediaSsrc);
    Be16At(p, 12, f.baseSeq);
    Be16At(p, 14, f.statusCount);
    assert p[16..20] == [f.refTime24 / 0x1_0000, f.refTime24 / 0x100 % 0x100, f.refTime24 % 0x100, f.fbPktCount];
    assert p[16] == p[16..20][0] && p[17] == p[16..20][1] && p[18] == p[16..20][2] && p[19] == p[16..20][3];
  }

  lemma AssembledHeader(f: Payload)
    requires f.refTime24 < 0x100_0000
    ensures HasHeader(Assemble(f), f)
  {
    var tail := ChunkBytes(f.chunks) + f.deltaBytes + Trailer(f);
    assert Assemble(f) == Header(f) + tail;
    HeaderFields(f, tail);
  }

  lemma AssembledLength(f: Payload)
    requires f.refTime24 < 0x100_0000
    ensures |Assemble(f)| == 4 + Ceil4(BodyLen(f)) == 24 + Ceil4(2 * |f.chunks| + |f.deltaBytes|)
  {
    var n := 2 * |f.chunks| + |f.deltaBytes|;
    assert BodyLen(f) == n + 20 && (n + 23) / 4 == (n + 3) / 4 + 5;
  }

  /** Length, length field and padding of an assembled packet agree; four surplus zero bytes remain. */
  lemma Framing(f: Payload)
    requires f.refTime24 < 0x100_0000 && Ceil4(BodyLen(f)) < 0x4_0000
    ensures var p := Assemble(f);
            && HasHeader(p, f) && |p| == 4 * (U16At(p, 2) + 1)
            && 20 <= ContentEnd(p) <= |p| && p[20..ContentEnd(p)] == ChunkBytes(f.chunks) + f.deltaBytes + Zeros(4)
  {
    var p, content := Assemble(f), ChunkBytes(f.chunks) + f.deltaBytes;
    var pad := Ceil4(BodyLen(f)) - BodyLen(f);
    AssembledLength(f);
    AssembledHeader(f);
    assert p[|p| - 1] == Trailer(f)[3 + pad] == pad;
    assert ContentEnd(p) == |p| - pad;
    assert p[20..|p| - pad] == content + Trailer(f)[..4];
    assert Trailer(f)[..4] == Zeros(4);
  }

  lemma BodyDecodes(ss: seq<PacketStatus>, ds: seq<int>)
    requires Matches(ss, ds)
    ensures DecodeBody(ChunkBytes(Chunks(ss, 0)) + DeltaBytes(ss, ds) + Zeros(4), |ss|) == Some((ss, Clamped(ds)))
  {
    var rest := DeltaBytes(ss, ds) + Zeros(4);
    AppendAssociative(ChunkBytes(Chunks(ss, 0)), DeltaBytes(ss, ds), Zeros(4));
    ChunksDecode(ss, 0, rest);
    assert ss[0..] == ss;
    DeltasDecode(ss, ds, Zeros(4));
  }

  lemma HeaderDecodes(p: seq<u8>, f: Payload, ss: seq<PacketStatus>, ds: seq<int>)
    requires HasHeader(p, f) && |p| == 4 * (U16At(p, 2) + 1) && 20 <= ContentEnd(p) <= |p|
    requires DecodeBody(p[20..ContentEnd(p)], f.statusCount) == Some((ss, ds))
    ensures Decode(p) == Some(Feedback(1, f.mediaSsrc, f.baseSeq, f.refTime24, f.fbPktCount, ss, ds))
  {
  }

  lemma AssembledDecodes(f: Payload, ss: seq<PacketStatus>, ds: seq<int>)
    requires f.refTime24 < 0x100_0000 && Ceil4(BodyLen(f)) < 0x4_0000
    requires Matches(ss, ds) && f.statusCount == |ss|
    requires f.chunks == Chunks(ss, 0) && f.deltaBytes == DeltaBytes(ss, ds)
    ensures Decode(Assemble(f)) ==
            Some(Feedback(1, f.mediaSsrc, f.baseSeq, f.refTime24, f.fbPktCount, ss, Clamped(ds)))
  {
    Framing(f);
    BodyDecodes(ss, ds);
    HeaderDecodes(Assemble(f), f, ss, Clamped(ds));
  }

  /** Every feedback packet decodes, by the draft's rules, to the recorder's pending window: base, count,
      one status per number (not received exactly when the recorder has no arrival for it), and every
      delta clamped to 14 bits; its size is 24 bytes plus the padded chunks and deltas. */
  lemma FeedbackRoundTrip(r: Recording, mediaSsrc: u32)
    requires Valid(r) && !NothingToReport(r)
    ensures var n, base, f := PendingCount(r), r.baseTime.value, FeedbackPayload(r, mediaSsrc);
            var arrivals, p := Received(r, n), BuildFeedback(r, mediaSsrc).value;
            var ss := Statuses(r, base, n);
            && Decode(p) == Some(Feedback(1, mediaSsrc, r.pendingBaseSeq,
                                          RefTimeRaw(base, arrivals[0]) % 0x100_0000, r.fbPktCount,
                                          ss, Clamped(Deltas(base, arrivals))))
            && |ss| == n
            && (forall i :: 0 <= i < n ==> (ss[i].NotReceived? <==> Get(r, Wrap16(r.pendingBaseSeq + i)).None?))
            && |p| == 24 + Ceil4(2 * |f.chunks| + |f.deltaBytes|)
  {
    var n, base, f := PendingCount(r), r.baseTime.value, FeedbackPayload(r, mediaSsrc);
    var ss, ds := Statuses(r, base, n), Deltas(base, Received(r, n));
    StatusesMatchDeltas(r, base, n);
    DeltaBytesBound(ss, ds);
    AssembledLength(f);
    AssembledDecodes(f, ss, ds);
    forall i | 0 <= i < n
      ensures ss[i].NotReceived? <==> Get(r, Wrap16(r.pendingBaseSeq + i)).None?
    {
      StatusesMeanReceived(r, base, n, i);
    }
  }

  /** One delta per received status, in one byte exactly where it fits one. */
  ghost predicate Shortest(ss: seq<PacketStatus>, ds: seq<int>)
    decreases ss
  {
    if ss == [] then ds == []
    else if ss[0].NotReceived? then Shortest(ss[1..], ds)
    else ds != [] && (ss[0].SmallDelta? <==> 0 <= ds[0] <= 255) && Shortest(ss[1..], ds[1..])
  }

  lemma {:induction false} MatchingShortest(ss: seq<PacketStatus>, ds: seq<int>)
    requires Matches(ss, ds)
    ensures Shortest(ss, Clamped(ds))
    decreases ss
  {
    if ss == [] {
      assert Clamped(ds) == [];
    } else if ss[0].NotReceived? {
      MatchingShortest(ss[1..], ds);
    } else {
      MatchingShortest(ss[1..], ds[1..]);
      ClampedFirst(ds);
      assert Clamped(ds)[1..] == Clamped(ds[1..]);
    }
  }

  /** Every feedback packet reads back with one delta per received packet, in one byte exactly when it is 0 to 255. */
  lemma FeedbackShortest(r: Recording, mediaSsrc: u32)
    requires Valid(r) && !NothingToReport(r)
    ensures var f := Decode(BuildFeedback(r, mediaSsrc).value);
            f.Some? && Shortest(f.value.statuses, f.value.deltas)
  {
    var n, base := PendingCount(r), r.baseTime.value;
    FeedbackRoundTrip(r, mediaSsrc);
    StatusesMatchDeltas(r, base, n);
    MatchingShortest(Statuses(r, base, n), Deltas(base, Received(r, n)));
  }

  ghost predicate InRange(ds: seq<int>) {
    forall k :: 0 <= k < |ds| ==> -8192 <= ds[k] <= 8191
  }

  /** The decoded deltas are the recorder's own exactly when all of them fit 14 bits. */
  lemma DeltasExactIffInRange(ds: seq<int>)
    ensures Clamped(ds) == ds <==> InRange(ds)
  {
    var cs := Clamped(ds);
    if cs == ds {
      forall k | 0 <= k < |ds|
        ensures -8192 <= ds[k] <= 8191
      {
        assert cs[k] == ds[k];
      }
    }
  }

  // ---------------------------------------------------------------- reconstructed arrival times

  function Sum(ds: seq<int>): int {
    if ds == [] then 0 else Sum(ds[..|ds| - 1]) + ds[|ds| - 1]
  }

  const UNIT_NS := 250_000

  /** The arrival time a receiver reconstructs for the k-th received packet, in nanoseconds after the
      recorder's base time, from the reference time in 64 ms steps and the deltas in 250 us steps. */
  function Reconstructed(refTime: nat, ds: seq<int>, k: nat): int
    requires k < |ds|
  {
    (refTime * 256 + Sum(ds[..k + 1])) * UNIT_NS
  }

  lemma UnitsError(ns: nat)
    ensures 0 <= ns - Units(ns) * UNIT_NS < UNIT_NS
  {
  }

  /** The first delta is what the 64 ms reference time leaves over, so it always fits one byte. */
  lemma FirstDeltaSmall(base: Instant, arrivals: seq<Instant>)
    requires arrivals != []
    ensures 0 <= DeltaAt(base, arrivals, 0) <= 255
    ensures RefTimeRaw(base, arrivals[0]) * 256 + DeltaAt(base, arrivals, 0) == Units(SatSub(arrivals[0], base))
  {
  }

  ghost predicate InSequence(arrivals: seq<Instant>, k: nat)
    requires k < |arrivals|
  {
    forall i :: 0 < i <= k ==> arrivals[i - 1] <= arrivals[i]
  }

  /** The reconstruction of the k-th received packet errs by less than (k+1) * 250 us, and only towards
      the past when arrivals follow the sequence order. */
  ghost predicate CloseTo(base: Instant, arrivals: seq<Instant>, refTime: nat, ds: seq<int>, k: nat)
    requires k < |arrivals| == |ds|
  {
    var err := arrivals[k] - base - Reconstructed(refTime, ds, k);
    && -((k + 1) * UNIT_NS) < err < (k + 1) * UNIT_NS
    && (InSequence(arrivals, k) ==> 0 <= err)
  }

  lemma {:induction false} ArrivalTimesRecovered(base: Instant, arrivals: seq<Instant>, k: nat)
    requires k < |arrivals| && base <= arrivals[0]
    ensures CloseTo(base, arrivals, RefTimeRaw(base, arrivals[0]), Deltas(base, arrivals), k)
  {
    var ds := Deltas(base, arrivals);
    var ref := RefTimeRaw(base, arrivals[0]);
    assert ds[..k + 1][..k] == ds[..k] && ds[..k + 1][k] == ds[k];
    if k == 0 {
      assert Sum(ds[..0]) == 0;
      FirstDeltaSmall(base, arrivals);
      UnitsError(arrivals[0] - base);
    } else {
      ArrivalTimesRecovered(base, arrivals, k - 1);
      StepError(arrivals[k - 1], arrivals[k]);
      assert Sum(ds[..k + 1]) == Sum(ds[..k]) + ds[k];
      assert Reconstructed(ref, ds, k) == Reconstructed(ref, ds, k - 1) + ds[k] * UNIT_NS;
    }
  }

  lemma StepError(a: Instant, b: Instant)
    ensures -UNIT_NS < (b - a) - Delta(a, b) * UNIT_NS < UNIT_NS
    ensures a <= b ==> 0 <= (b - a) - Delta(a, b) * UNIT_NS
  {
    UnitsError(if b >= a then b - a else a - b);
  }

  /** What clamping takes off each delta. */
  function Excess(ds: seq<int>): (xs: seq<int>)
    ensures |xs| == |ds| && forall k :: 0 <= k < |ds| ==> xs[k] == ds[k] - Clamp(ds[k], -8192, 8191)
  {
    seq(|ds|, k requires 0 <= k < |ds| => ds[k] - Clamp(ds[k], -8192, 8191))
  }

  lemma {:induction false} SumClamped(ds: seq<int>, k: nat)
    requires k <= |ds|
    ensures Sum(ds[..k]) == Sum(Clamped(ds)[..k]) + Sum(Excess(ds)[..k])
  {
    if k > 0 {
      var cs, xs := Clamped(ds), Excess(ds);
      assert ds[..k][..k - 1] == ds[..k - 1] && cs[..k][..k - 1] == cs[..k - 1] && xs[..k][..k - 1] == xs[..k - 1];
      SumClamped(ds, k - 1);
    }
  }

  lemma {:induction false} NoExcess(ds: seq<int>, k: nat)
    requires k <= |ds| && InRange(ds[..k])
    ensures Sum(Excess(ds)[..k]) == 0
  {
    if k > 0 {
      var xs := Excess(ds);
      assert ds[..k][k - 1] == ds[k - 1] && ds[..k - 1] == ds[..k][..k - 1] && xs[..k][..k - 1] == xs[..k - 1];
      NoExcess(ds, k - 1);
    }
  }

  /** The reconstruction of the k-th received packet from clamped deltas errs by 250 us times the summed excess up to
      it, and beyond that by less than (k+1) * 250 us, towards the past when arrivals follow the sequence order. */
  ghost predicate CloseUpToExcess(base: Instant, arrivals: seq<Instant>, refTime: nat, ds: seq<int>, k: nat)
    requires k < |arrivals| == |ds|
  {
    var lost := Sum(Excess(ds)[..k + 1]) * UNIT_NS;
    var err := arrivals[k] - base - Reconstructed(refTime, Clamped(ds), k) - lost;
    && -((k + 1) * UNIT_NS) < err < (k + 1) * UNIT_NS
    && (InSequence(arrivals, k) ==> 0 <= err)
  }

  lemma ClampedTimes(base: Instant, arrivals: seq<Instant>, k: nat)
    requires k < |arrivals| && base <= arrivals[0]
    ensures var ds, refTime := Deltas(base, arrivals), RefTimeRaw(base, arrivals[0]);
            && CloseUpToExcess(base, arrivals, refTime, ds, k)
            && (InRange(ds[..k + 1]) ==> CloseTo(base, arrivals, refTime, Clamped(ds), k))
  {
    var ds, refTime := Deltas(base, arrivals), RefTimeRaw(base, arrivals[0]);
    ArrivalTimesRecovered(base, arrivals, k);
    SumClamped(ds, k + 1);
    var lost := Sum(Excess(ds)[..k + 1]);
    assert Reconstructed(refTime, ds, k) == Reconstructed(refTime, Clamped(ds), k) + lost * UNIT_NS;
    if InRange(ds[..k + 1]) {
      NoExcess(ds, k + 1);
    }
  }

  lemma DecodedTimes(r: Recording, mediaSsrc: u32) returns (f: Feedback)
    requires Valid(r) && !NothingToReport(r)
    ensures Decode(BuildFeedback(r, mediaSsrc).value) == Some(f)
    ensures var base, arrivals := r.baseTime.value, Received(r, PendingCount(r));
            && f.refTime24 == RefTimeRaw(base, arrivals[0]) % 0x100_0000
            && f.deltas == Clamped(Deltas(base, arrivals))
  {
    FeedbackRoundTrip(r, mediaSsrc);
    f := Decode(BuildFeedback(r, mediaSsrc).value).value;
  }

  /** From the packet alone: the reference time (known modulo 2^24) and the decoded deltas give back the arrival of the
      k-th received packet within (k+1) * 250 us, plus 250 us for every unit clamped off the deltas up to it. */
  lemma FeedbackTimes(r: Recording, mediaSsrc: u32, k: nat) returns (f: Feedback)
    requires Valid(r) && !NothingToReport(r)
    requires k < |Received(r, PendingCount(r))| && r.baseTime.value <= Received(r, PendingCount(r))[0]
    ensures Decode(BuildFeedback(r, mediaSsrc).value) == Some(f)
    ensures var base, arrivals := r.baseTime.value, Received(r, PendingCount(r));
            var ds, refTime := Deltas(base, arrivals), RefTimeRaw(base, arrivals[0]);
            && f.refTime24 == refTime % 0x100_0000 && f.deltas == Clamped(ds) && 0 <= f.deltas[0] <= 255
            && CloseUpToExcess(base, arrivals, refTime, ds, k)
            && (InRange(ds[..k + 1]) ==> CloseTo(base, arrivals, refTime, f.deltas, k))
  {
    var base, arrivals := r.baseTime.value, Received(r, PendingCount(r));
    f := DecodedTimes(r, mediaSsrc);
    FirstDeltaSmall(base, arrivals);
    ClampedTimes(base, arrivals, k);
  }

  /** One clamped delta: the second packet arrives 3 s after the first and reads as 2.04775 s. */
  lemma ThreeSecondsRead()
    ensures var arrivals := [0, 3_000_000_000];
            var ds := Deltas(0, arrivals);
            && ds == [0, 12000] && Clamped(ds) == [0, 8191] && Sum(Excess(ds)[..2]) == 3809
            && Reconstructed(RefTimeRaw(0, 0), Clamped(ds), 1) == 2_047_750_000
  {
    var ds := Deltas(0, [0, 3_000_000_000]);
    assert ds == [0, 12000];
    var cs, xs := Clamped(ds), Excess(ds);
    assert cs == [0, 8191] && xs == [0, 3809];
    assert cs[..2][..1] == cs[..1] && cs[..1][..0] == [] && xs[..2][..1] == xs[..1] && xs[..1][..0] == [];
    assert Sum(cs[..1]) == 0 && Sum(xs[..1]) == 0;
  }
}
