/** Retransmission: the packet cache, the Generic NACK (RFC 4585), the RTX packet (RFC 4588), and the path
    from a lost virtual packet back to the source packet. */
module Nack {
  import opened Words
  import opened PttRewriter
  import PttStream
  import Rtcp

  const CACHE_SIZE := 512

  // ---------------------------------------------------------------- the cache

  type Slots = seq<Option<Packet>>

  function Empty(): (s: Slots)
    ensures |s| == CACHE_SIZE && forall i :: 0 <= i < CACHE_SIZE ==> s[i] == None
  {
    seq(CACHE_SIZE, _ => None)
  }

  function Store(slots: Slots, sequence: u16, p: Packet): (r: Slots)
    requires |slots| == CACHE_SIZE
    ensures |r| == CACHE_SIZE
  {
    slots[sequence % CACHE_SIZE := Some(p)]
  }

  /** The cached packet, if its own header carries the number asked for. */
  function Get(slots: Slots, sequence: u16): Option<Packet>
    requires |slots| == CACHE_SIZE
  {
    var p := slots[sequence % CACHE_SIZE];
    if p.Some? && |p.value| >= 12 && SeqOf(p.value) == sequence then p else None
  }

  class RtpCache {
    const slots: array<Option<Packet>>

    ghost predicate Valid() {
      slots.Length == CACHE_SIZE
    }

    constructor ()
      ensures Valid() && fresh(slots) && slots[..] == Empty()
    {
      slots := new Option<Packet>[CACHE_SIZE](_ => None);
    }

    method StorePacket(sequence: u16, p: Packet)
      requires Valid()
      modifies slots
      ensures slots[..] == Store(old(slots[..]), sequence, p)
    {
      var idx := sequence % CACHE_SIZE;
      slots[idx] := Some(p);
    }

    method Lookup(sequence: u16) returns (r: Option<Packet>)
      requires Valid()
      ensures r == Get(slots[..], sequence)
    {
      r := slots[sequence % CACHE_SIZE];
      if r.Some? && (|r.value| < 12 || SeqOf(r.value) != sequence) {
        r := None;
      }
    }
  }

  ghost predicate AllWhole(ps: seq<Packet>) {
    forall i :: 0 <= i < |ps| ==> |ps[i]| >= 12
  }

  function StoreAll(ps: seq<Packet>): (r: Slots)
    requires AllWhole(ps)
    ensures |r| == CACHE_SIZE
  {
    if ps == [] then Empty() else Store(StoreAll(ps[..|ps| - 1]), SeqOf(ps[|ps| - 1]), ps[|ps| - 1])
  }

  predicate SameSlot(p: Packet, q: Packet)
    requires |p| >= 12 && |q| >= 12
  {
    SeqOf(p) % CACHE_SIZE == SeqOf(q) % CACHE_SIZE
  }

  /** No packet stored after `i` goes to its slot. */
  ghost predicate Kept(ps: seq<Packet>, i: nat)
    requires AllWhole(ps) && i < |ps|
  {
    forall j :: i < j < |ps| ==> !SameSlot(ps[j], ps[i])
  }

  /** A different number went to the slot of `i`, and the number itself was not stored again since. */
  ghost predicate Overwritten(ps: seq<Packet>, i: nat)
    requires AllWhole(ps) && i < |ps|
  {
    exists j :: i < j < |ps| && SameSlot(ps[j], ps[i]) && SeqOf(ps[j]) != SeqOf(ps[i]) && Gone(ps, SeqOf(ps[i]), j)
  }

  ghost predicate Gone(ps: seq<Packet>, sequence: u16, j: nat)
    requires AllWhole(ps)
  {
    forall l :: j < l < |ps| ==> SeqOf(ps[l]) != sequence
  }

  /** Each slot holds the last packet stored in it. */
  lemma {:induction false} SlotHolds(ps: seq<Packet>, slot: nat) returns (w: int)
    requires AllWhole(ps) && slot < CACHE_SIZE
    ensures -1 <= w < |ps| && StoreAll(ps)[slot] == if w < 0 then None else Some(ps[w])
    ensures w >= 0 ==> SeqOf(ps[w]) % CACHE_SIZE == slot
    ensures forall j :: w < j < |ps| ==> SeqOf(ps[j]) % CACHE_SIZE != slot
  {
    w := -1;
    if ps != [] {
      w := SlotHolds(ps[..|ps| - 1], slot);
      if SeqOf(ps[|ps| - 1]) % CACHE_SIZE == slot {
        w := |ps| - 1;
      }
    }
  }

  /** Whatever was stored, in whatever order and with whatever gaps: a stored number is lost exactly when a different
      number of its slot was stored later and it was not stored again; a packet whose slot nobody used later is the
      one found. */
  lemma LostIffOverwritten(ps: seq<Packet>, i: nat)
    requires AllWhole(ps) && i < |ps|
    ensures Get(StoreAll(ps), SeqOf(ps[i])) == None <==> Overwritten(ps, i)
    ensures Kept(ps, i) ==> Get(StoreAll(ps), SeqOf(ps[i])) == Some(ps[i])
  {
    var n := SeqOf(ps[i]);
    var w := SlotHolds(ps, n % CACHE_SIZE);
    LastWriter(ps, i, w);
    assert Get(StoreAll(ps), n) == if SeqOf(ps[w]) == n then Some(ps[w]) else None;
  }

  lemma LastWriter(ps: seq<Packet>, i: nat, w: int)
    requires AllWhole(ps) && i < |ps| && -1 <= w < |ps|
    requires w >= 0 ==> SameSlot(ps[w], ps[i])
    requires forall j :: w < j < |ps| ==> !SameSlot(ps[j], ps[i])
    ensures w >= i && (Kept(ps, i) ==> w == i)
    ensures SeqOf(ps[w]) != SeqOf(ps[i]) <==> Overwritten(ps, i)
  {
    assert SameSlot(ps[i], ps[i]);
    if SeqOf(ps[w]) != SeqOf(ps[i]) {
      assert Gone(ps, SeqOf(ps[i]), w);
    }
  }

  /** What a lookup finds was stored under that number, and its slot was not used since. */
  lemma FoundWasKept(ps: seq<Packet>, sequence: u16) returns (i: nat)
    requires AllWhole(ps) && Get(StoreAll(ps), sequence).Some?
    ensures i < |ps| && SeqOf(ps[i]) == sequence && Kept(ps, i) && Get(StoreAll(ps), sequence) == Some(ps[i])
  {
    i := SlotHolds(ps, sequence % CACHE_SIZE);
  }

  /** The packets carry these numbers, before the 16-bit wrap. */
  ghost predicate Numbered(ns: seq<int>, ps: seq<Packet>) {
    AllWhole(ps) && |ns| == |ps| && forall i :: 0 <= i < |ps| ==> SeqOf(ps[i]) == Wrap16(ns[i])
  }

  lemma SlotsDiffer(m: int, n: int)
    requires m != n && -CACHE_SIZE < m - n < CACHE_SIZE
    ensures Wrap16(m) % CACHE_SIZE != Wrap16(n) % CACHE_SIZE
  {
    WrapSlot(m);
    WrapSlot(n);
    assert m - n == CACHE_SIZE * (m / CACHE_SIZE - n / CACHE_SIZE) + (m % CACHE_SIZE - n % CACHE_SIZE);
  }

  /** Across gaps, reordering and wraps: a packet is retrievable as long as everything stored after it is less than 512
      numbers away; after in-order stores, so are all stored numbers of the latest 512. */
  lemma LatestRetrievable(ns: seq<int>, ps: seq<Packet>, i: nat)
    requires Numbered(ns, ps) && i < |ps|
    requires forall j :: i < j < |ps| ==> ns[j] != ns[i] && -CACHE_SIZE < ns[j] - ns[i] < CACHE_SIZE
    ensures Get(StoreAll(ps), Wrap16(ns[i])) == Some(ps[i])
  {
    forall j | i < j < |ps|
      ensures !SameSlot(ps[j], ps[i])
    {
      SlotsDiffer(ns[j], ns[i]);
    }
    LostIffOverwritten(ps, i);
  }

  ghost predicate Unbroken(ns: seq<int>) {
    forall j :: 0 <= j < |ns| ==> ns[j] == ns[0] + j
  }

  lemma OneRingLater(n: int)
    ensures Wrap16(n + CACHE_SIZE) % CACHE_SIZE == Wrap16(n) % CACHE_SIZE
  {
    WrapSlot(n);
    WrapSlot(n + CACHE_SIZE);
  }

  lemma OldNotKept(ns: seq<int>, ps: seq<Packet>, i: nat)
    requires Numbered(ns, ps) && Unbroken(ns) && i + CACHE_SIZE < |ps|
    ensures !Kept(ps, i)
  {
    OneRingLater(ns[i]);
    assert SameSlot(ps[i + CACHE_SIZE], ps[i]);
  }

  /** After storing an unbroken stretch, wraps included, nothing but the latest 512 numbers is retrievable. */
  lemma OnlyLatestRetrievable(ns: seq<int>, ps: seq<Packet>, sequence: u16) returns (i: nat)
    requires Numbered(ns, ps) && Get(StoreAll(ps), sequence).Some?
    ensures i < |ps| && sequence == Wrap16(ns[i]) && Get(StoreAll(ps), sequence) == Some(ps[i])
    ensures Unbroken(ns) ==> |ps| - CACHE_SIZE <= i
  {
    i := FoundWasKept(ps, sequence);
    if Unbroken(ns) && i + CACHE_SIZE < |ps| {
      OldNotKept(ns, ps, i);
    }
  }

  // ---------------------------------------------------------------- lost numbers

  /** `x >> i`. */
  function Shr(x: nat, i: nat): nat {
    if i == 0 then x else Shr(x / 2, i - 1)
  }

  /** `blp & (1 << i) != 0`. */
  predicate Bit(x: nat, i: nat) {
    Shr(x, i) % 2 == 1
  }

  function Expand(pid: u16, blp: u16, bits: nat): seq<u16> {
    if bits == 0 then [pid]
    else Expand(pid, blp, bits - 1) + (if Bit(blp, bits - 1) then [Wrap16(pid + bits)] else [])
  }

  method ExpandNack(pid: u16, blp: u16) returns (seqs: seq<u16>)
    ensures seqs == Expand(pid, blp, 16)
  {
    seqs := [pid];
    for i := 0 to 16
      invariant seqs == Expand(pid, blp, i)
    {
      if Bit(blp, i) {
        seqs := seqs + [Wrap16(pid + i + 1)];
      }
    }
  }

  lemma {:induction false} ExpandHas(pid: u16, blp: u16, bits: nat, i: nat)
    requires i < bits && Bit(blp, i)
    ensures Wrap16(pid + i + 1) in Expand(pid, blp, bits)
  {
    if i < bits - 1 {
      ExpandHas(pid, blp, bits - 1, i);
    }
  }

  /** A number that is neither `pid` nor marked is not listed. */
  lemma {:induction false} ExpandHasNot(pid: u16, blp: u16, bits: nat, s: u16)
    requires s != pid && forall j :: 0 <= j < bits && Bit(blp, j) ==> s != Wrap16(pid + j + 1)
    ensures s !in Expand(pid, blp, bits)
  {
    if bits > 0 {
      ExpandHasNot(pid, blp, bits - 1, s);
      assert Bit(blp, bits - 1) ==> s != Wrap16(pid + (bits - 1) + 1);
    }
  }

  /** What a NACK asks for: its PID, and the numbers behind it whose bits are set. */
  ghost predicate AskedFor(pid: u16, blp: u16, s: u16) {
    s == pid || exists i :: 0 <= i < 16 && Bit(blp, i) && s == Wrap16(pid + i + 1)
  }

  lemma {:induction false} PidListed(pid: u16, blp: u16, bits: nat)
    ensures Expand(pid, blp, bits) != [] && Expand(pid, blp, bits)[0] == pid
  {
    if bits > 0 {
      PidListed(pid, blp, bits - 1);
    }
  }

  /** How far `s` is behind `pid`, modulo 2^16. */
  function Behind(pid: u16, s: u16): u16 {
    Wrap16(s - pid)
  }

  lemma DistanceBehind(pid: u16, n: nat)
    requires n <= 16
    ensures Behind(pid, Wrap16(pid + n)) == n
  {
    WrapInner16(pid + n, 0 - pid);
  }

  /** Distances ascend and stay within `bits`. */
  ghost predicate Ascending(pid: u16, e: seq<u16>, bits: nat) {
    && (forall i :: 0 <= i < |e| ==> Behind(pid, e[i]) <= bits)
    && (forall i, j :: 0 <= i < j < |e| ==> Behind(pid, e[i]) < Behind(pid, e[j]))
  }

  lemma AscendsFurther(pid: u16, e: seq<u16>, bits: nat, s: u16)
    requires Ascending(pid, e, bits) && Behind(pid, s) == bits + 1
    ensures Ascending(pid, e, bits + 1) && Ascending(pid, e + [s], bits + 1)
  {
  }

  /** The listed numbers move away from the PID, so none is listed twice. */
  lemma {:induction false} ExpandAscends(pid: u16, blp: u16, bits: nat)
    requires bits <= 16
    ensures Ascending(pid, Expand(pid, blp, bits), bits)
  {
    if bits > 0 {
      ExpandAscends(pid, blp, bits - 1);
      DistanceBehind(pid, bits);
      AscendsFurther(pid, Expand(pid, blp, bits - 1), bits - 1, Wrap16(pid + bits));
    }
  }

  /** The expansion lists exactly what the NACK asks for, the PID first, in ascending order and nothing twice. */
  lemma ExpandExactly(pid: u16, blp: u16, s: u16)
    ensures s in Expand(pid, blp, 16) <==> AskedFor(pid, blp, s)
    ensures Expand(pid, blp, 16) != [] && Expand(pid, blp, 16)[0] == pid
    ensures Ascending(pid, Expand(pid, blp, 16), 16)
  {
    PidListed(pid, blp, 16);
    ExpandAscends(pid, blp, 16);
    if AskedFor(pid, blp, s) {
      if s != pid {
        var i :| 0 <= i < 16 && Bit(blp, i) && s == Wrap16(pid + i + 1);
        ExpandHas(pid, blp, 16, i);
      }
    } else {
      ExpandHasNot(pid, blp, 16, s);
    }
  }

  /** The bitmask a receiver sends for the numbers it misses after `pid`, bits j and up. */
  function Mask(pid: u16, lost: set<u16>, j: nat): nat
    decreases SatSub(16, j)
  {
    if j >= 16 then 0 else 2 * Mask(pid, lost, j + 1) + (if Wrap16(pid + j + 1) in lost then 1 else 0)
  }

  lemma {:induction false} MaskBits(pid: u16, lost: set<u16>, j: nat, i: nat)
    requires j + i < 16
    ensures Bit(Mask(pid, lost, j), i) <==> Wrap16(pid + j + i + 1) in lost
    decreases i
  {
    if i > 0 {
      HalfMask(pid, lost, j);
      MaskBits(pid, lost, j + 1, i - 1);
    }
  }

  lemma HalfMask(pid: u16, lost: set<u16>, j: nat)
    requires j < 16
    ensures Mask(pid, lost, j) / 2 == Mask(pid, lost, j + 1)
  {
  }

  lemma MaskFits(pid: u16, lost: set<u16>)
    ensures Mask(pid, lost, 0) < 0x1_0000
  {
    MaskBound(pid, lost, 0);
    Pow2Widths();
  }

  lemma {:induction false} MaskBound(pid: u16, lost: set<u16>, j: nat)
    requires j <= 16
    ensures Mask(pid, lost, j) < Pow2(16 - j)
    decreases 16 - j
  {
    if j < 16 {
      MaskBound(pid, lost, j + 1);
    }
  }

  /** Every number of the 16 after `pid` that a receiver marks as lost, and no other, is asked for. */
  lemma NackListsLost(pid: u16, lost: set<u16>, i: nat)
    requires i < 16
    ensures Mask(pid, lost, 0) < 0x1_0000
    ensures Wrap16(pid + i + 1) in Expand(pid, Mask(pid, lost, 0), 16) <==> Wrap16(pid + i + 1) in lost
  {
    MaskFits(pid, lost);
    MaskBits(pid, lost, 0, i);
    MarkedIff(pid, Mask(pid, lost, 0), i);
  }

  /** Bit `i` of the mask and nothing else decides whether number `i + 1` behind the PID is listed. */
  lemma MarkedIff(pid: u16, blp: u16, i: nat)
    requires i < 16
    ensures Wrap16(pid + i + 1) in Expand(pid, blp, 16) <==> Bit(blp, i)
  {
    ExpandExactly(pid, blp, Wrap16(pid + i + 1));
    NearDistinct(pid, i + 1, 0);
    forall j | 0 <= j < 16 && Bit(blp, j) && Wrap16(pid + i + 1) == Wrap16(pid + j + 1)
      ensures j == i
    {
      NearDistinct(pid, i + 1, j + 1);
    }
  }

  /** Numbers less than 2^16 apart stay apart when wrapped. */
  lemma NearDistinct(pid: u16, a: nat, b: nat)
    requires a <= 16 && b <= 16
    ensures Wrap16(pid + a) == Wrap16(pid + b) ==> a == b
  {
    WrapDifference16(pid + a, pid + b);
  }

  // ---------------------------------------------------------------- NACK blocks

  datatype NackItem = NackItem(mediaSsrc: u32, pid: u16, blp: u16)

  function FciItems(buf: seq<u8>, o: nat, end: nat, ssrc: u32): seq<NackItem>
    requires end <= |buf|
    decreases SatSub(end, o)
  {
    if o + 4 > end then []
    else [NackItem(ssrc, U16At(buf, o), U16At(buf, o + 2))] + FciItems(buf, o + 4, end, ssrc)
  }

  /** What the block at an offset, of a given length, contributes. */
  type BlockReader = (nat, nat) -> seq<NackItem>

  /** The contributions of the blocks from offset `o` on; the last block may be cut short. */
  function Walk(read: BlockReader, buf: seq<u8>, o: nat): seq<NackItem>
    decreases SatSub(|buf|, o)
  {
    if o + 4 > |buf| then []
    else
      var n := Rtcp.BlockLength(buf, o);
      read(o, n) + Walk(read, buf, o + n)
  }

  /** The items of the block of `n` bytes at offset `o`, if it is a Generic NACK. */
  function BlockItems(buf: seq<u8>, o: nat, n: nat): seq<NackItem> {
    if o + 12 <= |buf| && buf[o + 1] == Rtcp.PT_NACK && buf[o] % 0x20 == Rtcp.FMT_NACK
    then FciItems(buf, o + 12, Min(o + n, |buf|), U32At(buf, o + 8)) else []
  }

  function Reading(buf: seq<u8>): BlockReader {
    (o: nat, n: nat) => BlockItems(buf, o, n)
  }

  function ParseNack(buf: seq<u8>): seq<NackItem> {
    Walk(Reading(buf), buf, 0)
  }

  /** The same walk, collecting into `items`. */
  function WalkInto(read: BlockReader, buf: seq<u8>, o: nat, items: seq<NackItem>): seq<NackItem>
    decreases SatSub(|buf|, o)
  {
    if o + 4 > |buf| then items
    else
      var n := Rtcp.BlockLength(buf, o);
      WalkInto(read, buf, o + n, items + read(o, n))
  }

  lemma {:induction false} WalkCollects(read: BlockReader, buf: seq<u8>, o: nat, items: seq<NackItem>)
    ensures WalkInto(read, buf, o, items) == items + Walk(read, buf, o)
    decreases SatSub(|buf|, o)
  {
    if o + 4 <= |buf| {
      var n := Rtcp.BlockLength(buf, o);
      WalkCollects(read, buf, o + n, items + read(o, n));
      AppendAssociative(items, read(o, n), Walk(read, buf, o + n));
    }
  }

  method ParseBlock(buf: seq<u8>, o: nat, n: nat) returns (items: seq<NackItem>)
    requires o + 4 <= |buf|
    ensures items == Reading(buf)(o, n)
  {
    items := [];
    if buf[o + 1] == Rtcp.PT_NACK && buf[o] % 0x20 == Rtcp.FMT_NACK && o + 12 <= |buf| {
      items := ParseFci(buf, o + 12, Min(o + n, |buf|), U32At(buf, o + 8));
    }
  }

  method ParseRtcpNack(buf: seq<u8>) returns (items: seq<NackItem>)
    ensures items == ParseNack(buf)
  {
    ghost var read := Reading(buf);
    items := [];
    var offset: nat := 0;
    while offset + 4 <= |buf|
      invariant WalkInto(read, buf, offset, items) == WalkInto(read, buf, 0, [])
      decreases SatSub(|buf|, offset)
    {
      var n := Rtcp.BlockLength(buf, offset);
      var found := ParseBlock(buf, offset, n);
      items := items + found;
      offset := offset + n;
    }
    WalkCollects(read, buf, 0, []);
    assert [] + Walk(read, buf, 0) == Walk(read, buf, 0);
  }

  method ParseFci(buf: seq<u8>, start: nat, end: nat, ssrc: u32) returns (items: seq<NackItem>)
    requires end <= |buf|
    ensures items == FciItems(buf, start, end, ssrc)
  {
    items := [];
    var o: nat := start;
    while o + 4 <= end
      invariant items + FciItems(buf, o, end, ssrc) == FciItems(buf, start, end, ssrc)
      decreases SatSub(end, o)
    {
      var item := NackItem(ssrc, U16At(buf, o), U16At(buf, o + 2));
      AppendAssociative(items, [item], FciItems(buf, o + 4, end, ssrc));
      items := items + [item];
      o := o + 4;
    }
    assert items + [] == items;
  }

  function FciBytes(items: seq<NackItem>): (b: seq<u8>)
    ensures |b| == 4 * |items|
  {
    if items == [] then [] else Be16(items[0].pid) + Be16(items[0].blp) + FciBytes(items[1..])
  }

  /** The block a receiver builds for its losses (section 6.2.1 of RFC 4585). */
  function NackBlock(sender: u32, media: u32, items: seq<NackItem>): seq<u8>
    requires |items| < 0xFFFE
  {
    [0x80 + Rtcp.FMT_NACK, Rtcp.PT_NACK] + Be16(2 + |items|) + Be32(sender) + Be32(media) + FciBytes(items)
  }

  lemma {:induction false} FciRoundTrip(buf: seq<u8>, o: nat, end: nat, media: u32, items: seq<NackItem>)
    requires o <= end <= |buf| && buf[o..end] == FciBytes(items)
    requires forall i :: 0 <= i < |items| ==> items[i].mediaSsrc == media
    ensures FciItems(buf, o, end, media) == items
    decreases |items|
  {
    if items != [] {
      var x, tail := items[0], buf[o..end];
      assert tail[0..2] == Be16(x.pid) && tail[2..4] == Be16(x.blp);
      SubSlice(buf, o, end, 0, 2);
      SubSlice(buf, o, end, 2, 4);
      Be16At(buf, o, x.pid);
      Be16At(buf, o + 2, x.blp);
      assert buf[o + 4..end] == tail[4..] == FciBytes(items[1..]);
      FciRoundTrip(buf, o + 4, end, media, items[1..]);
      assert items == [x] + items[1..];
    }
  }

  lemma FciHead(buf: seq<u8>, o: nat, end: nat, media: u32, items: seq<NackItem>)
    requires o + 4 <= end <= |buf| && end - o <= 4 * |items| && buf[o..end] == FciBytes(items)[..end - o]
    requires items[0].mediaSsrc == media
    ensures FciItems(buf, o, end, media) == [items[0]] + FciItems(buf, o + 4, end, media)
    ensures buf[o + 4..end] == FciBytes(items[1..])[..end - o - 4]
  {
    var x, bytes, tail := items[0], FciBytes(items), buf[o..end];
    assert tail[0..2] == bytes[0..2] == Be16(x.pid) && tail[2..4] == bytes[2..4] == Be16(x.blp);
    SubSlice(buf, o, end, 0, 2);
    SubSlice(buf, o, end, 2, 4);
    Be16At(buf, o, x.pid);
    Be16At(buf, o + 2, x.blp);
    assert bytes[4..] == FciBytes(items[1..]);
    assert buf[o + 4..end] == tail[4..] == bytes[4..end - o];
  }

  /** A cut list gives the items that are whole. */
  lemma {:induction false} FciCut(buf: seq<u8>, o: nat, end: nat, media: u32, items: seq<NackItem>)
    requires o <= end <= |buf| && end - o <= 4 * |items| && buf[o..end] == FciBytes(items)[..end - o]
    requires forall i :: 0 <= i < |items| ==> items[i].mediaSsrc == media
    ensures FciItems(buf, o, end, media) == items[..(end - o) / 4]
    decreases |items|
  {
    if o + 4 <= end {
      FciHead(buf, o, end, media, items);
      FciCut(buf, o + 4, end, media, items[1..]);
      var k := (end - o) / 4;
      assert items[..k] == [items[0]] + items[1..][..k - 1];
    }
  }

  lemma CutHead(b: seq<u8>, m: nat)
    requires 12 <= m <= |b|
    ensures U16At(b[..m], 2) == U16At(b, 2) && U32At(b[..m], 8) == U32At(b, 8)
    ensures b[..m][0] == b[0] && b[..m][1] == b[1] && b[..m][12..] == b[12..m]
  {
  }

  lemma ShortWalk(read: BlockReader, buf: seq<u8>)
    requires |buf| >= 4 && |buf| <= Rtcp.BlockLength(buf, 0)
    ensures Walk(read, buf, 0) == read(0, Rtcp.BlockLength(buf, 0))
  {
    var n := Rtcp.BlockLength(buf, 0);
    assert read(0, n) + [] == read(0, n);
  }

  /** A loss report cut short gives the losses that are whole; one cut in its header gives none. */
  lemma CutNackRead(sender: u32, media: u32, items: seq<NackItem>, m: nat)
    requires |items| < 0xFFFE && m <= 12 + 4 * |items|
    requires forall i :: 0 <= i < |items| ==> items[i].mediaSsrc == media
    ensures |NackBlock(sender, media, items)| == 12 + 4 * |items|
    ensures ParseNack(NackBlock(sender, media, items)[..m]) == if m < 12 then [] else items[..(m - 12) / 4]
  {
    var b := NackBlock(sender, media, items);
    var buf := b[..m];
    NackBlockFields(sender, media, items);
    if m >= 12 {
      CutHead(b, m);
      ShortWalk(Reading(buf), buf);
      assert buf[12..m] == FciBytes(items)[..m - 12];
      FciCut(buf, 12, m, media, items);
    } else if m >= 4 {
      ShortWalk(Reading(buf), buf);
    }
  }

  /** One part of a compound: a receiver's losses on one stream, or a block of another kind. */
  datatype Part = Losses(sender: u32, media: u32, items: seq<NackItem>) | Other(block: seq<u8>)

  ghost predicate ValidPart(p: Part) {
    match p
    case Losses(_, media, items) => |items| < 0xFFFE && forall i :: 0 <= i < |items| ==> items[i].mediaSsrc == media
    case Other(b) => Rtcp.WellFormed(b) && !(b[1] == Rtcp.PT_NACK && b[0] % 0x20 == Rtcp.FMT_NACK)
  }

  function PartBytes(p: Part): seq<u8>
    requires ValidPart(p)
  {
    match p
    case Losses(sender, media, items) => NackBlock(sender, media, items)
    case Other(b) => b
  }

  function PartItems(p: Part): seq<NackItem> {
    if p.Losses? then p.items else []
  }

  ghost predicate AllValid(ps: seq<Part>) {
    forall i :: 0 <= i < |ps| ==> ValidPart(ps[i])
  }

  function Blocks(ps: seq<Part>): seq<seq<u8>>
    requires AllValid(ps)
  {
    if ps == [] then [] else [PartBytes(ps[0])] + Blocks(ps[1..])
  }

  function AllItems(ps: seq<Part>): seq<NackItem> {
    if ps == [] then [] else PartItems(ps[0]) + AllItems(ps[1..])
  }

  lemma NackBlockFields(sender: u32, media: u32, items: seq<NackItem>)
    requires |items| < 0xFFFE
    ensures var b := NackBlock(sender, media, items);
            && |b| == 12 + 4 * |items| && Rtcp.WellFormed(b) && b[0] == 0x80 + Rtcp.FMT_NACK && b[1] == Rtcp.PT_NACK
            && U32At(b, 8) == media && b[12..] == FciBytes(items)
  {
    var b := NackBlock(sender, media, items);
    var head := [0x80 + Rtcp.FMT_NACK, Rtcp.PT_NACK];
    FourFields(head, Be16(2 + |items|), Be32(sender), Be32(media), FciBytes(items));
    Be16At(b, 2, 2 + |items|);
    Be32At(b, 8, media);
  }

  lemma FourFields(a: seq<u8>, b: seq<u8>, c: seq<u8>, d: seq<u8>, e: seq<u8>)
    requires |a| == 2 && |b| == 2 && |c| == 4 && |d| == 4
    ensures var w := a + b + c + d + e;
            w[0] == a[0] && w[1] == a[1] && w[2..4] == b && w[8..12] == d && w[12..] == e && |w| == 12 + |e|
  {
  }

  /** A block reads the same inside a buffer. */
  lemma BlockHead(buf: seq<u8>, o: nat, b: seq<u8>)
    requires Rtcp.WellFormed(b) && o + |b| <= |buf| && b <= buf[o..]
    ensures buf[o] == b[0] && buf[o + 1] == b[1] && Rtcp.BlockLength(buf, o) == |b|
    ensures |b| >= 12 ==> U32At(buf, o + 8) == U32At(b, 8) && buf[o + 12..o + |b|] == b[12..]
  {
    var tail := buf[o..];
    assert forall i :: 0 <= i < |b| ==> buf[o + i] == tail[i] == b[i];
  }

  lemma PartHere(buf: seq<u8>, o: nat, p: Part)
    requires ValidPart(p) && o + |PartBytes(p)| <= |buf| && PartBytes(p) <= buf[o..]
    ensures |PartBytes(p)| >= 4 && Rtcp.BlockLength(buf, o) == |PartBytes(p)|
    ensures Reading(buf)(o, |PartBytes(p)|) == PartItems(p)
  {
    var b := PartBytes(p);
    if p.Losses? {
      NackBlockFields(p.sender, p.media, p.items);
      BlockHead(buf, o, b);
      FciRoundTrip(buf, o + 12, o + |b|, p.media, p.items);
    } else {
      BlockHead(buf, o, b);
    }
  }

  function ItemLists(ps: seq<Part>): (r: seq<seq<NackItem>>)
    ensures |r| == |ps|
  {
    if ps == [] then [] else [PartItems(ps[0])] + ItemLists(ps[1..])
  }

  function Flatten(lists: seq<seq<NackItem>>): seq<NackItem> {
    if lists == [] then [] else lists[0] + Flatten(lists[1..])
  }

  /** Each block contributes its own list where it lies. */
  ghost predicate ReadsBlocks(read: BlockReader, o: nat, blocks: seq<seq<u8>>, lists: seq<seq<NackItem>>)
    requires |lists| == |blocks|
    decreases blocks
  {
    blocks != [] ==>
      read(o, |blocks[0]|) == lists[0] && ReadsBlocks(read, o + |blocks[0]|, blocks[1..], lists[1..])
  }

  lemma PartWellFormed(p: Part)
    requires ValidPart(p)
    ensures Rtcp.WellFormed(PartBytes(p))
  {
    if p.Losses? {
      NackBlockFields(p.sender, p.media, p.items);
    }
  }

  lemma {:induction false} PartsRead(buf: seq<u8>, o: nat, ps: seq<Part>)
    requires AllValid(ps) && o <= |buf| && Rtcp.Laid(buf, o, Blocks(ps))
    ensures |Blocks(ps)| == |ps| && Rtcp.AllWellFormed(Blocks(ps), 4)
    ensures ReadsBlocks(Reading(buf), o, Blocks(ps), ItemLists(ps))
    decreases |ps|
  {
    if ps != [] {
      assert Blocks(ps)[0] == PartBytes(ps[0]) && Blocks(ps)[1..] == Blocks(ps[1..]);
      assert ItemLists(ps)[1..] == ItemLists(ps[1..]);
      PartHere(buf, o, ps[0]);
      PartWellFormed(ps[0]);
      PartsRead(buf, o + |PartBytes(ps[0])|, ps[1..]);
    }
  }

  lemma LaidLength(buf: seq<u8>, o: nat, b: seq<u8>)
    requires Rtcp.WellFormed(b) && o + |b| <= |buf| && b <= buf[o..]
    ensures Rtcp.BlockLength(buf, o) == |b|
  {
    BlockHead(buf, o, b);
  }

  lemma {:induction false} WalkBlocks(
    read: BlockReader, buf: seq<u8>, o: nat, blocks: seq<seq<u8>>, lists: seq<seq<NackItem>>)
    requires |lists| == |blocks| && Rtcp.AllWellFormed(blocks, 4)
    requires o <= |buf| && Rtcp.Laid(buf, o, blocks) && ReadsBlocks(read, o, blocks, lists)
    ensures Walk(read, buf, o) == Flatten(lists)
    decreases |blocks|
  {
    if blocks == [] {
      WalkEnd(read, buf);
    } else {
      WalkStep(read, buf, o, blocks[0]);
      WalkBlocks(read, buf, o + |blocks[0]|, blocks[1..], lists[1..]);
    }
  }

  lemma WalkEnd(read: BlockReader, buf: seq<u8>)
    ensures Walk(read, buf, |buf|) == []
  {
  }

  lemma WalkStep(read: BlockReader, buf: seq<u8>, o: nat, b: seq<u8>)
    requires Rtcp.WellFormed(b) && o + |b| <= |buf| && b <= buf[o..]
    ensures Walk(read, buf, o) == read(o, |b|) + Walk(read, buf, o + |b|)
  {
    LaidLength(buf, o, b);
  }

  lemma {:induction false} FlattenIsAll(ps: seq<Part>)
    ensures Flatten(ItemLists(ps)) == AllItems(ps)
  {
    if ps != [] {
      FlattenIsAll(ps[1..]);
      assert ItemLists(ps)[1..] == ItemLists(ps[1..]);
    }
  }

  /** Every compound of loss reports and other blocks gives back all losses, in order. */
  lemma NackRoundTrip(ps: seq<Part>)
    requires AllValid(ps)
    ensures ParseNack(Rtcp.Assemble(Blocks(ps))) == AllItems(ps)
  {
    var buf := Rtcp.Assemble(Blocks(ps));
    Rtcp.AssembleLaid([], Blocks(ps));
    assert [] + buf == buf;
    PartsRead(buf, 0, ps);
    WalkBlocks(Reading(buf), buf, 0, Blocks(ps), ItemLists(ps));
    FlattenIsAll(ps);
  }

  // ---------------------------------------------------------------- RTX packets

  function RtxPt(pt: u8): u8 {
    if pt == 102 then 103 else 97
  }

  /** The fixed header and the contributing sources; a header extension is not counted. */
  function HeaderLen(p: Packet): nat
    requires |p| >= 12
  {
    12 + p[0] % 0x10 * 4
  }

  function BuildRtx(p: Packet, rtxSsrc: u32, rtxSeq: u16): Packet {
    if |p| < 12 || |p| < HeaderLen(p) then []
    else
      [p[0], RtxPt(p[1] % 0x80)] + Be16(rtxSeq) + p[4..8] + Be32(rtxSsrc) + p[12..HeaderLen(p)]
      + Be16(SeqOf(p)) + p[HeaderLen(p)..]
  }

  method BuildRtxPacket(p: Packet, rtxSsrc: u32, rtxSeq: u16) returns (rtx: Packet)
    ensures rtx == BuildRtx(p, rtxSsrc, rtxSeq)
  {
    if |p| < 12 {
      return [];
    }
    var headerLen := 12 + p[0] % 0x10 * 4;
    if |p| < headerLen {
      return [];
    }
    rtx := p[..headerLen];
    rtx := rtx[1 := RtxPt(p[1] % 0x80)];
    rtx := rtx[..2] + Be16(rtxSeq) + rtx[4..];
    rtx := rtx[..8] + Be32(rtxSsrc) + rtx[12..];
    assert rtx == [p[0], RtxPt(p[1] % 0x80)] + Be16(rtxSeq) + p[4..8] + Be32(rtxSsrc) + p[12..headerLen];
    rtx := rtx + Be16(SeqOf(p));
    rtx := rtx + p[headerLen..];
  }

  /** A packet shorter than its own header yields nothing, every other one an RTX packet. */
  lemma RtxEmptyIff(p: Packet, rtxSsrc: u32, rtxSeq: u16)
    ensures BuildRtx(p, rtxSsrc, rtxSeq) == [] <==> |p| < 12 || |p| < HeaderLen(p)
  {
  }

  /** An RTX packet carries the source number right behind the CSRC list and then the source bytes; its own
      header has the retransmission's payload type, number and SSRC and the source's timestamp and CSRC list. */
  ghost predicate Carries(rtx: Packet, p: Packet, rtxSsrc: u32, rtxSeq: u16) {
    && |p| >= 12 && |p| >= HeaderLen(p) && |rtx| == |p| + 2
    && SeqOf(rtx) == rtxSeq && TsOf(rtx) == TsOf(p) && SsrcOf(rtx) == rtxSsrc && rtx[0] == p[0]
    && rtx[1] == (if p[1] % 0x80 == 102 then 103 else 97) && rtx[12..HeaderLen(p)] == p[12..HeaderLen(p)]
    && U16At(rtx, HeaderLen(p)) == SeqOf(p) && rtx[HeaderLen(p) + 2..] == p[HeaderLen(p)..]
  }

  lemma RtxCarriesSource(p: Packet, rtxSsrc: u32, rtxSeq: u16)
    requires |p| >= 12 && |p| >= HeaderLen(p)
    ensures Carries(BuildRtx(p, rtxSsrc, rtxSeq), p, rtxSsrc, rtxSeq)
  {
    var rtx, h := BuildRtx(p, rtxSsrc, rtxSeq), HeaderLen(p);
    assert rtx[2..4] == Be16(rtxSeq);
    assert rtx[8..12] == Be32(rtxSsrc);
    assert rtx[h..h + 2] == Be16(SeqOf(p));
    assert rtx[h + 2..] == p[h..];
    assert forall i :: 4 <= i < 8 ==> rtx[i] == p[i];
    assert rtx[12..h] == p[12..h];
    Be16At(rtx, 2, rtxSeq);
    Be32At(rtx, 8, rtxSsrc);
    Be16At(rtx, h, SeqOf(p));
  }

  predicate HasExtension(p: Packet)
    requires |p| >= 12
  {
    p[0] / 0x10 % 2 == 1
  }

  function CsrcBytes(sources: seq<u32>): (b: seq<u8>)
    ensures |b| == 4 * |sources|
  {
    if sources == [] then [] else Be32(sources[0]) + CsrcBytes(sources[1..])
  }

  /** An RTP packet from its parts (section 5.1 of RFC 3550); `top` holds version, padding and extension bits. */
  function RtpPacket(top: u8, second: u8, sequence: u16, ts: u32, ssrc: u32, sources: seq<u32>, rest: seq<u8>): Packet
    requires top < 0x10 && |sources| < 0x10
  {
    [top * 0x10 + |sources|, second] + Be16(sequence) + Be32(ts) + Be32(ssrc) + CsrcBytes(sources) + rest
  }

  lemma RtpParts(first: u8, second: u8, a: seq<u8>, b: seq<u8>, c: seq<u8>, d: seq<u8>, rest: seq<u8>)
    requires |a| == 2 && |b| == 4 && |c| == 4
    ensures var p, h := [first, second] + a + b + c + d + rest, 12 + |d|;
            p[0] == first && p[1] == second && p[2..4] == a && p[4..8] == b && p[12..h] == d && p[h..] == rest
  {
  }

  /** The retransmission of any packet, part by part: same top bits, timestamp and contributing sources, the RTX payload
      type without marker, the RTX stream's own number and SSRC, and the original number in front of the rest. */
  lemma RtxOfParts(top: u8, second: u8, sequence: u16, ts: u32, ssrc: u32, sources: seq<u32>, rest: seq<u8>,
                   rtxSsrc: u32, rtxSeq: u16)
    requires top < 0x10 && |sources| < 0x10
    ensures BuildRtx(RtpPacket(top, second, sequence, ts, ssrc, sources, rest), rtxSsrc, rtxSeq) ==
            RtpPacket(top, if second % 0x80 == 102 then 103 else 97, rtxSeq, ts, rtxSsrc, sources,
                      Be16(sequence) + rest)
  {
    var p := RtpPacket(top, second, sequence, ts, ssrc, sources, rest);
    RtpParts(top * 0x10 + |sources|, second, Be16(sequence), Be32(ts), Be32(ssrc), CsrcBytes(sources), rest);
    Be16At(p, 2, sequence);
    assert HeaderLen(p) == 12 + 4 * |sources|;
    AppendAssociative([p[0], RtxPt(p[1] % 0x80)] + Be16(rtxSeq) + Be32(ts) + Be32(rtxSsrc) + CsrcBytes(sources),
                      Be16(sequence), rest);
  }

  /** Where the payload of an RTP packet starts (sections 5.1 and 5.3.1 of RFC 3550): behind the fixed header, the
      contributing sources and the header extension. */
  function PayloadStart(p: Packet): Option<nat> {
    if |p| < 12 || |p| < HeaderLen(p) then None
    else if !HasExtension(p) then Some(HeaderLen(p))
    else if |p| < HeaderLen(p) + 4 || |p| < ExtensionEnd(p) then None
    else Some(ExtensionEnd(p))
  }

  function ExtensionEnd(p: Packet): nat
    requires |p| >= 12 && |p| >= HeaderLen(p) + 4
  {
    HeaderLen(p) + 4 + 4 * U16At(p, HeaderLen(p) + 2)
  }

  /** A receiver's reading of an RTX packet (section 4 of RFC 4588): the payload starts with the original number. */
  function ReadRtx(rtx: Packet): Option<(u16, seq<u8>)> {
    var start := PayloadStart(rtx);
    if start.None? || |rtx| < start.value + 2 then None
    else Some((U16At(rtx, start.value), rtx[start.value + 2..]))
  }

  /** What the receiver should read: the source's number and payload. */
  predicate ReadsBack(rtx: Packet, p: Packet)
    requires PayloadStart(p).Some?
  {
    ReadRtx(rtx) == Some((SeqOf(p), p[PayloadStart(p).value..]))
  }

  /** No header extension; or one whose profile happens to equal its length, with the packet's own number as the last
      two bytes before the payload. */
  predicate Readable(p: Packet)
    requires PayloadStart(p).Some?
  {
    !HasExtension(p)
    || (U16At(p, HeaderLen(p)) == U16At(p, HeaderLen(p) + 2) && U16At(p, ExtensionEnd(p) - 2) == SeqOf(p))
  }

  lemma RtxPlain(p: Packet, rtxSsrc: u32, rtxSeq: u16)
    requires PayloadStart(p).Some? && !HasExtension(p)
    ensures ReadsBack(BuildRtx(p, rtxSsrc, rtxSeq), p)
  {
    RtxCarriesSource(p, rtxSsrc, rtxSeq);
  }

  /** The bytes behind the original number are the source's, two places later. */
  lemma RtxTail(p: Packet, rtxSsrc: u32, rtxSeq: u16, i: nat)
    requires |p| >= 12 && HeaderLen(p) <= i && i + 2 <= |p|
    ensures var rtx := BuildRtx(p, rtxSsrc, rtxSeq);
            |rtx| == |p| + 2 && U16At(rtx, i + 2) == U16At(p, i) && rtx[i + 2..] == p[i..]
  {
    RtxCarriesSource(p, rtxSsrc, rtxSeq);
    var rtx, h := BuildRtx(p, rtxSsrc, rtxSeq), HeaderLen(p);
    LaterTail(rtx, h + 2, p, h, i - h);
    assert rtx[i + 2] == rtx[i + 2..][0] && rtx[i + 3] == rtx[i + 2..][1];
  }

  lemma LaterTail<T>(a: seq<T>, m: nat, b: seq<T>, n: nat, k: nat)
    requires m + k <= |a| && n + k <= |b| && a[m..] == b[n..]
    ensures a[m + k..] == b[n + k..]
  {
    assert a[m..][k..] == a[m + k..] && b[n..][k..] == b[n + k..];
  }

  /** RFC 4588 puts the number behind the header extension, this server in front of it: a receiver takes the profile for
      the extension's length. */
  lemma RtxExtended(p: Packet, rtxSsrc: u32, rtxSeq: u16)
    requires PayloadStart(p).Some? && HasExtension(p)
    ensures ReadsBack(BuildRtx(p, rtxSsrc, rtxSeq), p) <==> Readable(p)
    ensures var profile := U16At(p, HeaderLen(p));
            ReadRtx(BuildRtx(p, rtxSsrc, rtxSeq)) == None <==> |p| < HeaderLen(p) + 4 + 4 * profile
  {
    var rtx, h := BuildRtx(p, rtxSsrc, rtxSeq), HeaderLen(p);
    RtxCarriesSource(p, rtxSsrc, rtxSeq);
    RtxTail(p, rtxSsrc, rtxSeq, h);
    assert HasExtension(rtx) && HeaderLen(rtx) == h;
    var read, end := ExtensionEnd(rtx), ExtensionEnd(p);
    assert read == h + 4 + 4 * U16At(p, h);
    if read + 2 <= |rtx| {
      assert |rtx[read + 2..]| == |p| - read && |p[end..]| == |p| - end;
      if read == end {
        RtxTail(p, rtxSsrc, rtxSeq, end - 2);
        assert rtx[end..][2..] == rtx[end + 2..] && p[end - 2..][2..] == p[end..];
      }
    }
  }

  /** For every packet with a readable header of its own: a receiver gets number and payload back exactly when there is
      no header extension, or by the coincidence described above. */
  lemma RtxReadableIff(p: Packet, rtxSsrc: u32, rtxSeq: u16)
    requires PayloadStart(p).Some?
    ensures ReadsBack(BuildRtx(p, rtxSsrc, rtxSeq), p) <==> Readable(p)
  {
    if HasExtension(p) {
      RtxExtended(p, rtxSsrc, rtxSeq);
    } else {
      RtxPlain(p, rtxSsrc, rtxSeq);
    }
  }

  /** The profile of one-byte extensions, which carry the transport-wide sequence numbers. */
  const ONE_BYTE_PROFILE: u16 := 0xBEDE

  /** Of a packet with one-byte extensions that fits a UDP datagram, a receiver reads nothing at all. */
  lemma OneByteExtensionUnreadable(p: Packet, rtxSsrc: u32, rtxSeq: u16)
    requires PayloadStart(p).Some? && HasExtension(p) && U16At(p, HeaderLen(p)) == ONE_BYTE_PROFILE && |p| < 0x1_0000
    ensures ReadRtx(BuildRtx(p, rtxSsrc, rtxSeq)) == None
  {
    RtxExtended(p, rtxSsrc, rtxSeq);
  }

  // ---------------------------------------------------------------- recovery

  /** The numbers a subscriber asked for, mapped back to the source stream. */
  function Reversed(s: RewriteState, lost: seq<u16>): (r: seq<u16>)
    ensures |r| == |lost| && forall i :: 0 <= i < |lost| ==> r[i] == ReverseSeq(s, lost[i])
  {
    seq(|lost|, i requires 0 <= i < |lost| => ReverseSeq(s, lost[i]))
  }

  /** One RTX packet per number still cached, numbered consecutively from `next`. */
  function Recover(slots: Slots, lost: seq<u16>, rtxSsrc: u32, next: u16): seq<Packet>
    requires |slots| == CACHE_SIZE
  {
    if lost == [] then []
    else
      var p := Get(slots, lost[0]);
      if p.None? then Recover(slots, lost[1..], rtxSsrc, next)
      else [BuildRtx(p.value, rtxSsrc, next)] + Recover(slots, lost[1..], rtxSsrc, Wrap16(next + 1))
  }

  /** The cached packets among the numbers asked for, in that order. */
  function Hits(slots: Slots, lost: seq<u16>): seq<Packet>
    requires |slots| == CACHE_SIZE
  {
    if lost == [] then []
    else
      var p := Get(slots, lost[0]);
      (if p.Some? then [p.value] else []) + Hits(slots, lost[1..])
  }

  type Builder = (Packet, u16) -> Packet

  /** `build` applied to each packet, with consecutive numbers from `next` on. */
  function Consecutively(build: Builder, ps: seq<Packet>, next: u16): (out: seq<Packet>)
    ensures |out| == |ps| && forall j :: 0 <= j < |ps| ==> out[j] == build(ps[j], Wrap16(next + j))
  {
    seq(|ps|, j requires 0 <= j < |ps| => build(ps[j], Wrap16(next + j)))
  }

  lemma ConsecutivelyFirst(build: Builder, p: Packet, ps: seq<Packet>, next: u16)
    ensures Consecutively(build, [p] + ps, next) == [build(p, next)] + Consecutively(build, ps, Wrap16(next + 1))
  {
    var all, rest := Consecutively(build, [p] + ps, next), Consecutively(build, ps, Wrap16(next + 1));
    forall j | 0 < j < |all|
      ensures all[j] == rest[j - 1]
    {
      WrapInner16(next + 1, j - 1);
    }
  }

  function Retransmitting(rtxSsrc: u32): Builder {
    (p: Packet, rtxSeq: u16) => BuildRtx(p, rtxSsrc, rtxSeq)
  }

  /** One retransmission for every number asked for that is cached, in that order, consecutively numbered; no other. */
  lemma {:induction false} RecoverExactly(slots: Slots, lost: seq<u16>, rtxSsrc: u32, next: u16)
    requires |slots| == CACHE_SIZE
    ensures Recover(slots, lost, rtxSsrc, next) == Consecutively(Retransmitting(rtxSsrc), Hits(slots, lost), next)
    decreases |lost|
  {
    if lost != [] {
      var p, rest := Get(slots, lost[0]), Hits(slots, lost[1..]);
      if p.None? {
        RecoverExactly(slots, lost[1..], rtxSsrc, next);
        assert [] + rest == rest;
      } else {
        RecoverExactly(slots, lost[1..], rtxSsrc, Wrap16(next + 1));
        ConsecutivelyFirst(Retransmitting(rtxSsrc), p.value, rest, next);
      }
    }
  }

  method RecoverLost(cache: RtpCache, lost: seq<u16>, rtxSsrc: u32, firstSeq: u16)
    returns (packets: seq<Packet>, next: u16)
    requires cache.Valid()
    ensures packets == Recover(cache.slots[..], lost, rtxSsrc, firstSeq)
    ensures next == Wrap16(firstSeq + |packets|)
  {
    packets, next := [], firstSeq;
    for i := 0 to |lost|
      invariant packets + Recover(cache.slots[..], lost[i..], rtxSsrc, next) ==
                Recover(cache.slots[..], lost, rtxSsrc, firstSeq)
      invariant next == Wrap16(firstSeq + |packets|)
    {
      RecoverStep(cache.slots[..], lost, i, rtxSsrc, next, packets);
      var p := cache.Lookup(lost[i]);
      if p.Some? {
        var rtx := BuildRtxPacket(p.value, rtxSsrc, next);
        WrapInner16(firstSeq + |packets|, 1);
        packets := packets + [rtx];
        next := Wrap16(next + 1);
      }
    }
  }

  lemma RecoverStep(slots: Slots, lost: seq<u16>, i: nat, rtxSsrc: u32, next: u16, before: seq<Packet>)
    requires |slots| == CACHE_SIZE && i < |lost|
    ensures var p := Get(slots, lost[i]);
            before + Recover(slots, lost[i..], rtxSsrc, next) ==
            if p.None? then before + Recover(slots, lost[i + 1..], rtxSsrc, next)
            else
              (before + [BuildRtx(p.value, rtxSsrc, next)])
              + Recover(slots, lost[i + 1..], rtxSsrc, Wrap16(next + 1))
  {
    var p := Get(slots, lost[i]);
    assert lost[i..][1..] == lost[i + 1..];
    if p.Some? {
      AppendAssociative(before, [BuildRtx(p.value, rtxSsrc, next)],
                        Recover(slots, lost[i + 1..], rtxSsrc, Wrap16(next + 1)));
    }
  }

  lemma {:induction false} HitFound(slots: Slots, lost: seq<u16>, i: nat, p: Packet) returns (j: nat)
    requires |slots| == CACHE_SIZE && i < |lost| && Get(slots, lost[i]) == Some(p)
    ensures j < |Hits(slots, lost)| && Hits(slots, lost)[j] == p
    decreases |lost|
  {
    if i == 0 {
      j := 0;
    } else {
      j := HitFound(slots, lost[1..], i - 1, p);
      j := if Get(slots, lost[0]).Some? then j + 1 else j;
    }
  }

  lemma RecoverFinds(slots: Slots, lost: seq<u16>, rtxSsrc: u32, next: u16, i: nat, p: Packet)
    returns (j: nat, rtxSeq: u16)
    requires |slots| == CACHE_SIZE && i < |lost| && Get(slots, lost[i]) == Some(p)
    ensures var out := Recover(slots, lost, rtxSsrc, next); j < |out| && out[j] == BuildRtx(p, rtxSsrc, rtxSeq)
    ensures rtxSeq == Wrap16(next + j)
  {
    j := HitFound(slots, lost, i, p);
    rtxSeq := Wrap16(next + j);
    RecoverExactly(slots, lost, rtxSsrc, next);
    assert Retransmitting(rtxSsrc)(p, rtxSeq) == BuildRtx(p, rtxSsrc, rtxSeq);
  }

  // ---------------------------------------------------------------- recovery in a running burst

  /** The packet that event `m` handed to the subscribers. */
  function SentBy(k: Profile, es: seq<PttStream.Event>, m: nat): PttStream.Sent
    requires m < |es| && PttStream.Accepts(PttStream.Play(k, es[..m]), es[m])
  {
    PttStream.Advance(k, PttStream.Play(k, es[..m]), es[m]).sent[|PttStream.Play(k, es[..m]).sent|]
  }

  lemma {:induction false} SentStays(k: Profile, es: seq<PttStream.Event>, m: nat)
    requires m < |es| && PttStream.Accepts(PttStream.Play(k, es[..m]), es[m])
    ensures var i, t := |PttStream.Play(k, es[..m]).sent|, PttStream.Play(k, es);
            i < |t.sent| && t.sent[i] == SentBy(k, es, m)
  {
    var init := es[..|es| - 1];
    if m < |es| - 1 {
      assert init[..m] == es[..m] && init[m] == es[m];
      SentStays(k, init, m);
    }
  }

  /** The virtual number of a packet of the running burst leads back to its source number. */
  lemma CurrentBurstReverses(k: Profile, es: seq<PttStream.Event>, m: nat)
    requires m < |es| && PttStream.Accepts(PttStream.Play(k, es[..m]), es[m])
    requires PttStream.Play(k, es[..m]).burst == PttStream.Play(k, es).burst
    ensures var x := SentBy(k, es, m);
            |x.packet| >= 12 && ReverseSeq(PttStream.Play(k, es).s, SeqOf(x.packet)) == SeqOf(es[m].packet)
  {
    PttStream.BurstsKeepSourceDistances(k, es);
    SentStays(k, es, m);
    var x := SentBy(k, es, m);
    assert x.source == Some(es[m].packet) && x.burst == PttStream.Play(k, es).burst;
    assert PttStream.CarriesShift(k, PttStream.Play(k, es).s, x);
  }

  lemma RecoverBuilds(slots: Slots, numbers: seq<u16>, m: nat, p: Packet, rtxSsrc: u32, next: u16) returns (j: nat)
    requires |slots| == CACHE_SIZE && m < |numbers| && Get(slots, numbers[m]) == Some(p)
    ensures var out := Recover(slots, numbers, rtxSsrc, next);
            && j < |out| && out[j] == BuildRtx(p, rtxSsrc, Wrap16(next + j))
            && (PayloadStart(p).Some? ==> (ReadsBack(out[j], p) <==> Readable(p)))
  {
    var rtxSeq;
    j, rtxSeq := RecoverFinds(slots, numbers, rtxSsrc, next, m, p);
    if PayloadStart(p).Some? {
      RtxReadableIff(p, rtxSsrc, rtxSeq);
    }
  }

  /** In any run of the video rewriter: a packet sent in the burst still running is retransmitted, out of any cache that
      still holds it, for any NACK that lists its virtual number; and the receiver reads the source's number and payload
      from the retransmission exactly when the source packet is `Readable`. */
  lemma BurstRecovery(
    k: Profile, es: seq<PttStream.Event>, m: nat, slots: Slots, lost: seq<u16>, rtxSsrc: u32, next: u16)
    returns (j: nat)
    requires m < |es| && PttStream.Accepts(PttStream.Play(k, es[..m]), es[m])
    requires PttStream.Play(k, es[..m]).burst == PttStream.Play(k, es).burst
    requires |slots| == CACHE_SIZE && Get(slots, SeqOf(es[m].packet)) == Some(es[m].packet)
    requires |SentBy(k, es, m).packet| >= 12 && SeqOf(SentBy(k, es, m).packet) in lost
    ensures var s, p := PttStream.Play(k, es).s, es[m].packet;
            var out := Recover(slots, Reversed(s, lost), rtxSsrc, next);
            && j < |out| && out[j] == BuildRtx(p, rtxSsrc, Wrap16(next + j))
            && (PayloadStart(p).Some? ==> (ReadsBack(out[j], p) <==> Readable(p)))
  {
    CurrentBurstReverses(k, es, m);
    var s, virtualSeq := PttStream.Play(k, es).s, SeqOf(SentBy(k, es, m).packet);
    j := RecoverReads(slots, s, lost, virtualSeq, es[m].packet, rtxSsrc, next);
  }

  lemma ReversedHas(s: RewriteState, lost: seq<u16>, virtualSeq: u16) returns (i: nat)
    requires virtualSeq in lost
    ensures i < |Reversed(s, lost)| && Reversed(s, lost)[i] == ReverseSeq(s, virtualSeq)
  {
    i :| i < |lost| && lost[i] == virtualSeq;
  }

  lemma RecoverReads(
    slots: Slots, s: RewriteState, lost: seq<u16>, virtualSeq: u16, p: Packet, rtxSsrc: u32, next: u16)
    returns (j: nat)
    requires |slots| == CACHE_SIZE && virtualSeq in lost && |p| >= 12
    requires ReverseSeq(s, virtualSeq) == SeqOf(p) && Get(slots, SeqOf(p)) == Some(p)
    ensures var out := Recover(slots, Reversed(s, lost), rtxSsrc, next);
            && j < |out| && out[j] == BuildRtx(p, rtxSsrc, Wrap16(next + j))
            && (PayloadStart(p).Some? ==> (ReadsBack(out[j], p) <==> Readable(p)))
  {
    var i := ReversedHas(s, lost, virtualSeq);
    j := RecoverBuilds(slots, Reversed(s, lost), i, p, rtxSsrc, next);
  }
}
