/** Simulcast: one subscriber's view of one publisher's video, switched between layers. */
module Simulcast {
  import opened Words
  import R = PttRewriter

  type Packet = R.Packet
  type Rid = string

  const PAUSE: Rid := "pause"
  const HIGH: Rid := "h"

  datatype State = State(
    virtualSsrc: u32, seqOffset: u16, tsOffset: u32, lastOutSeq: u16, lastOutTs: u32,
    pendingKeyframe: bool, initialized: bool)

  function New(virtualSsrc: u32): State {
    State(virtualSsrc, 0, 0, 0, 0, false, false)
  }

  /** A packet is forwarded unless a keyframe is awaited and this is none. */
  predicate Forwards(s: State, p: Packet, isKeyframe: bool) {
    |p| >= 12 && ((s.initialized && !s.pendingKeyframe) || isKeyframe)
  }

  /** The packet starts a new segment: the first ever, or the first after a layer switch. */
  predicate Opens(s: State) {
    !s.initialized || s.pendingKeyframe
  }

  /** The offsets in force for a forwarded packet: zero at first, continuous after a switch. */
  function Rebase(s: State, p: Packet): State
    requires |p| >= 12
  {
    if !s.initialized then s.(seqOffset := 0, tsOffset := 0, initialized := true, pendingKeyframe := false)
    else if s.pendingKeyframe then
      s.(seqOffset := Wrap16(Wrap16(s.lastOutSeq + 1) - R.SeqOf(p)),
         tsOffset := Wrap32(Wrap32(s.lastOutTs + 1) - R.TsOf(p)), pendingKeyframe := false)
    else s
  }

  function OutSeq(s: State, sequence: u16): u16 {
    Wrap16(sequence + s.seqOffset)
  }

  function OutTs(s: State, ts: u32): u32 {
    Wrap32(ts + s.tsOffset)
  }

  function After(s: State, p: Packet, isKeyframe: bool): State {
    if !Forwards(s, p, isKeyframe) then s
    else
      var b := Rebase(s, p);
      b.(lastOutSeq := OutSeq(b, R.SeqOf(p)), lastOutTs := OutTs(b, R.TsOf(p)))
  }

  function Rewritten(s: State, p: Packet): Packet
    requires |p| >= 12
  {
    var b := Rebase(s, p);
    R.Patch(p, OutSeq(b, R.SeqOf(p)), OutTs(b, R.TsOf(p)), s.virtualSsrc, false)
  }

  function ReverseSeq(s: State, virtualSeq: u16): u16 {
    Wrap16(virtualSeq - s.seqOffset)
  }

  class SimulcastRewriter {
    var s: State

    constructor (virtualSsrc: u32)
      ensures s == New(virtualSsrc)
    {
      s := State(virtualSsrc, 0, 0, 0, 0, false, false);
    }

    method SwitchLayer()
      modifies this
      ensures s == old(s).(pendingKeyframe := true)
    {
      s := s.(pendingKeyframe := true);
    }

    method Rewrite(buf: array<u8>, isKeyframe: bool) returns (forward: bool)
      modifies this, buf
      ensures forward == Forwards(old(s), old(buf[..]), isKeyframe)
      ensures s == After(old(s), old(buf[..]), isKeyframe)
      ensures buf[..] == if forward then Rewritten(old(s), old(buf[..])) else old(buf[..])
    {
      if buf.Length < 12 {
        return false;
      }
      var inputSeq, inputTs := R.SeqOf(buf[..]), R.TsOf(buf[..]);
      if !s.initialized {
        if !isKeyframe {
          return false;
        }
        s := s.(seqOffset := 0, tsOffset := 0, initialized := true, pendingKeyframe := false);
      } else if s.pendingKeyframe {
        if !isKeyframe {
          return false;
        }
        var targetSeq := Wrap16(s.lastOutSeq + 1);
        var targetTs := Wrap32(s.lastOutTs + 1);
        s := s.(seqOffset := Wrap16(targetSeq - inputSeq), tsOffset := Wrap32(targetTs - inputTs));
        s := s.(pendingKeyframe := false);
      }
      var outSeq, outTs := Wrap16(inputSeq + s.seqOffset), Wrap32(inputTs + s.tsOffset);
      R.WriteHeader(buf, outSeq, outTs, s.virtualSsrc, false);
      s := s.(lastOutSeq := outSeq, lastOutTs := outTs);
      return true;
    }
  }

  // ---------------------------------------------------------------- runs of one subscription

  datatype Entry = Entry(rid: Rid, rewriter: State)

  /** A layer request by the subscriber, or a packet of one of the publisher's layers; `index` is its position in that
      layer's own stream, before the 16-bit wrap. */
  datatype Event =
    | Subscribe(rid: Rid)
    | Video(layer: Rid, packet: Packet, index: int, keyframe: bool)

  ghost predicate WellFormed(e: Event) {
    e.Video? && |e.packet| >= 12 ==> R.SeqOf(e.packet) == Wrap16(e.index)
  }

  /** A forwarded packet; `index` is its unwrapped position in the subscriber's stream. */
  datatype Sent = Sent(
    packet: Packet, source: Packet, index: int, layer: Rid, keyframe: bool, segment: nat, opens: bool)

  /** The subscription with what it has forwarded, and the positions of the last packet there and in its layer. */
  datatype Stream = Stream(entry: Option<Entry>, segment: nat, sent: seq<Sent>, last: int, lastSource: int)

  const START := Stream(None, 0, [], 0, 0)

  /** SUBSCRIBE_LAYER: a changed layer, other than pause, waits for a keyframe. */
  function Choose(entry: Option<Entry>, rid: Rid, ssrc: u32): Entry {
    var e := if entry.Some? then entry.value else Entry(rid, New(ssrc));
    if entry.Some? && entry.value.rid == rid then e
    else if rid != PAUSE then Entry(rid, e.rewriter.(pendingKeyframe := true))
    else Entry(rid, e.rewriter)
  }

  function Current(entry: Option<Entry>, ssrc: u32): Entry {
    if entry.Some? then entry.value else Entry(HIGH, New(ssrc))
  }

  predicate Relays(t: Stream, ssrc: u32, e: Event) {
    && e.Video?
    && var cur := Current(t.entry, ssrc);
       cur.rid != PAUSE && e.layer == cur.rid && Forwards(cur.rewriter, e.packet, e.keyframe)
  }

  /** The source's own position at first, the next one after a switch, the source distance inside a segment. */
  function NextIndex(t: Stream, opens: bool, index: int): int {
    if t.sent == [] then index else if opens then t.last + 1 else t.last + (index - t.lastSource)
  }

  function Advance(t: Stream, ssrc: u32, e: Event): Stream {
    match e
    case Subscribe(rid) => t.(entry := Some(Choose(t.entry, rid, ssrc)))
    case Video(layer, p, n, key) =>
      var cur := Current(t.entry, ssrc);
      if Relays(t, ssrc, e) then
        var opens := Opens(cur.rewriter);
        var segment, index := if opens then t.segment + 1 else t.segment, NextIndex(t, opens, n);
        Stream(Some(cur.(rewriter := After(cur.rewriter, p, key))), segment,
               t.sent + [Sent(Rewritten(cur.rewriter, p), p, index, layer, key, segment, opens)], index, n)
      else t.(entry := Some(cur))
  }

  function Play(ssrc: u32, es: seq<Event>): Stream {
    if es == [] then START else Advance(Play(ssrc, es[..|es| - 1]), ssrc, es[|es| - 1])
  }

  // ---------------------------------------------------------------- segments

  /** How a packet follows the one before it: in the same segment and layer, or opening the next segment with a
      keyframe and the next sequence number and timestamp. */
  ghost predicate Follows(x: Sent, y: Sent) {
    && |x.packet| >= 12 && |y.packet| >= 12
    && if y.opens then
         y.segment == x.segment + 1 && R.SeqOf(y.packet) == Wrap16(R.SeqOf(x.packet) + 1)
         && R.TsOf(y.packet) == Wrap32(R.TsOf(x.packet) + 1)
       else y.segment == x.segment && y.layer == x.layer
  }

  ghost predicate Shifted(ssrc: u32, s: State, x: Sent) {
    && |x.packet| == |x.source| >= 12 && R.SsrcOf(x.packet) == ssrc && x.packet[12..] == x.source[12..]
    && x.packet[..2] == x.source[..2]
    && R.SeqOf(x.packet) == OutSeq(s, R.SeqOf(x.source)) && R.TsOf(x.packet) == OutTs(s, R.TsOf(x.source))
  }

  ghost predicate Segmented(sent: seq<Sent>) {
    && (sent != [] ==> sent[0].opens)
    && (forall i :: 0 <= i < |sent| && sent[i].opens ==> sent[i].keyframe)
    && (forall i :: 0 < i < |sent| ==> Follows(sent[i - 1], sent[i]))
  }

  /** The rewriter continues from the last packet sent, and is on its layer unless it waits or is paused. */
  ghost predicate Continues(entry: Entry, segment: nat, last: Sent) {
    && last.segment == segment && |last.packet| >= 12
    && R.SeqOf(last.packet) == entry.rewriter.lastOutSeq && R.TsOf(last.packet) == entry.rewriter.lastOutTs
    && (!entry.rewriter.pendingKeyframe && entry.rid != PAUSE ==> last.layer == entry.rid)
  }

  ghost predicate InForce(ssrc: u32, entry: Entry, t: Stream) {
    && entry.rewriter.virtualSsrc == ssrc
    && (entry.rewriter.initialized <==> t.sent != [])
    && (t.sent != [] ==> Continues(entry, t.segment, t.sent[|t.sent| - 1]))
    && (forall i :: 0 <= i < |t.sent| && t.sent[i].segment == t.segment ==> Shifted(ssrc, entry.rewriter, t.sent[i]))
  }

  ghost predicate Inv(ssrc: u32, t: Stream) {
    && Segmented(t.sent)
    && (forall i :: 0 <= i < |t.sent| ==> t.sent[i].segment <= t.segment)
    && (if t.entry.Some? then InForce(ssrc, t.entry.value, t) else t.sent == [])
  }

  lemma RelayedShift(ssrc: u32, t: Stream, e: Event)
    requires Relays(t, ssrc, e) && Current(t.entry, ssrc).rewriter.virtualSsrc == ssrc
    ensures var u := Advance(t, ssrc, e);
            Shifted(ssrc, u.entry.value.rewriter, u.sent[|t.sent|])
  {
    var b := Rebase(Current(t.entry, ssrc).rewriter, e.packet);
    R.PatchFields(e.packet, OutSeq(b, R.SeqOf(e.packet)), OutTs(b, R.TsOf(e.packet)), ssrc, false);
  }

  /** After a switch the first packet continues from the last one sent. */
  lemma SwitchContinues(s: State, p: Packet)
    requires s.initialized && s.pendingKeyframe && |p| >= 12
    ensures var b := Rebase(s, p);
            OutSeq(b, R.SeqOf(p)) == Wrap16(s.lastOutSeq + 1) && OutTs(b, R.TsOf(p)) == Wrap32(s.lastOutTs + 1)
  {
    WrapInner16(s.lastOutSeq + 1, 0 - R.SeqOf(p));
    WrapInner16(s.lastOutSeq + 1 - R.SeqOf(p), R.SeqOf(p));
    WrapInner32(s.lastOutTs + 1, 0 - R.TsOf(p));
    WrapInner32(s.lastOutTs + 1 - R.TsOf(p), R.TsOf(p));
  }

  lemma SegmentedAppend(sent: seq<Sent>, x: Sent)
    requires Segmented(sent) && (x.opens ==> x.keyframe)
    requires if sent == [] then x.opens else Follows(sent[|sent| - 1], x)
    ensures Segmented(sent + [x])
  {
    assert forall i :: 0 <= i < |sent| ==> (sent + [x])[i] == sent[i];
  }

  lemma RelayFollows(ssrc: u32, t: Stream, e: Event)
    requires Inv(ssrc, t) && Relays(t, ssrc, e)
    ensures var x := Advance(t, ssrc, e).sent[|t.sent|];
            && (x.opens ==> x.keyframe)
            && if t.sent == [] then x.opens else Follows(t.sent[|t.sent| - 1], x)
  {
    RelayedShift(ssrc, t, e);
    var rw := Current(t.entry, ssrc).rewriter;
    if rw.initialized && rw.pendingKeyframe {
      SwitchContinues(rw, e.packet);
    }
  }

  /** What was shifted by the offsets in force still is, unless a new segment opened. */
  lemma RelayKeepsShift(ssrc: u32, t: Stream, e: Event, i: nat)
    requires Inv(ssrc, t) && Relays(t, ssrc, e) && i < |t.sent|
    ensures var u := Advance(t, ssrc, e);
            t.sent[i].segment == u.segment ==> Shifted(ssrc, u.entry.value.rewriter, t.sent[i])
  {
    assert t.sent[i].segment <= t.segment;
    var rw, next := t.entry.value.rewriter, Advance(t, ssrc, e).entry.value.rewriter;
    if !Opens(rw) {
      assert next.seqOffset == rw.seqOffset && next.tsOffset == rw.tsOffset;
    }
  }

  lemma RelayInv(ssrc: u32, t: Stream, e: Event)
    requires Inv(ssrc, t) && Relays(t, ssrc, e)
    ensures Inv(ssrc, Advance(t, ssrc, e))
  {
    var u := Advance(t, ssrc, e);
    var x := u.sent[|t.sent|];
    assert u.sent == t.sent + [x];
    RelayedShift(ssrc, t, e);
    RelayFollows(ssrc, t, e);
    SegmentedAppend(t.sent, x);
    forall i | 0 <= i < |t.sent|
      ensures t.sent[i].segment == u.segment ==> Shifted(ssrc, u.entry.value.rewriter, t.sent[i])
    {
      RelayKeepsShift(ssrc, t, e, i);
    }
  }

  lemma QuietInv(ssrc: u32, t: Stream, e: Event)
    requires Inv(ssrc, t) && !Relays(t, ssrc, e)
    ensures Inv(ssrc, Advance(t, ssrc, e))
  {
    var u := Advance(t, ssrc, e);
    assert u.sent == t.sent && u.segment == t.segment;
    assert forall i :: 0 <= i < |t.sent| && t.sent[i].segment == t.segment ==>
      Shifted(ssrc, u.entry.value.rewriter, t.sent[i]);
  }

  lemma ReverseInverts(s: State, sequence: u16)
    ensures ReverseSeq(s, OutSeq(s, sequence)) == sequence
  {
    WrapInner16(sequence + s.seqOffset, 0 - s.seqOffset);
  }

  /** In every run of layer requests and packets the forwarded stream is a concatenation of single-layer
      segments; each opens with a keyframe, the wire number and timestamp step by one at each switch, and inside
      the running segment `ReverseSeq` undoes the rewrite. */
  lemma {:induction false} SingleLayerSegments(ssrc: u32, es: seq<Event>)
    ensures Inv(ssrc, Play(ssrc, es))
  {
    if es != [] {
      var init, e := es[..|es| - 1], es[|es| - 1];
      SingleLayerSegments(ssrc, init);
      if Relays(Play(ssrc, init), ssrc, e) {
        RelayInv(ssrc, Play(ssrc, init), e);
      } else {
        QuietInv(ssrc, Play(ssrc, init), e);
      }
    }
  }

  lemma RunningSegmentReverses(ssrc: u32, es: seq<Event>, i: nat)
    requires var t := Play(ssrc, es); i < |t.sent| && t.sent[i].segment == t.segment
    ensures var t := Play(ssrc, es);
            && t.entry.Some? && |t.sent[i].packet| == |t.sent[i].source| >= 12
            && ReverseSeq(t.entry.value.rewriter, R.SeqOf(t.sent[i].packet)) == R.SeqOf(t.sent[i].source)
  {
    SingleLayerSegments(ssrc, es);
    var t := Play(ssrc, es);
    ReverseInverts(t.entry.value.rewriter, R.SeqOf(t.sent[i].source));
  }

  // ---------------------------------------------------------------- positions

  /** The wire numbers follow the positions. */
  ghost predicate Numbered(t: Stream) {
    && (t.sent != [] ==>
          && t.entry.Some? && t.entry.value.rewriter.lastOutSeq == Wrap16(t.last)
          && OutSeq(t.entry.value.rewriter, Wrap16(t.lastSource)) == Wrap16(t.last)
          && t.sent[|t.sent| - 1].index == t.last)
    && (forall i :: 0 <= i < |t.sent| ==>
          |t.sent[i].packet| >= 12 && R.SeqOf(t.sent[i].packet) == Wrap16(t.sent[i].index))
  }

  /** At a switch the position advances by one. */
  ghost predicate Bounded(sent: seq<Sent>) {
    forall i :: 0 < i < |sent| && sent[i].opens ==> sent[i].index == sent[i - 1].index + 1
  }

  ghost predicate Increasing(sent: seq<Sent>) {
    forall i :: 0 < i < |sent| ==> sent[i - 1].index < sent[i].index
  }

  /** Inside a segment, each forwarded packet is ahead of the one before it. */
  ghost predicate InOrder(ssrc: u32, es: seq<Event>) {
    es != [] ==>
      var t, e := Play(ssrc, es[..|es| - 1]), es[|es| - 1];
      && InOrder(ssrc, es[..|es| - 1])
      && (Relays(t, ssrc, e) && !Opens(Current(t.entry, ssrc).rewriter) ==> t.lastSource < e.index)
  }

  lemma OffsetNext(offset: u16, lastSource: int, index: int, last: int)
    requires Wrap16(Wrap16(lastSource) + offset) == Wrap16(last)
    ensures Wrap16(Wrap16(index) + offset) == Wrap16(last + (index - lastSource))
  {
    WrapInner16(lastSource, offset);
    WrapInner16(index, offset);
    WrapInner16(lastSource + offset, index - lastSource);
    WrapInner16(last, index - lastSource);
  }

  /** The number a forwarded packet gets is that of its position. */
  lemma RelayNumber(ssrc: u32, t: Stream, e: Event)
    requires Inv(ssrc, t) && Numbered(t) && WellFormed(e) && Relays(t, ssrc, e)
    ensures var b := Rebase(Current(t.entry, ssrc).rewriter, e.packet);
            OutSeq(b, Wrap16(e.index)) == Wrap16(Advance(t, ssrc, e).last)
  {
    var rw := Current(t.entry, ssrc).rewriter;
    RelayedAt(ssrc, t, e);
    NumbersKnown(ssrc, t);
    if !rw.initialized {
      FirstNumber(rw, e.packet, e.index);
    } else if rw.pendingKeyframe {
      SwitchNumber(rw, e.packet, t.last, e.index);
    } else {
      RunningNumber(rw, e.packet, t.lastSource, t.last, e.index);
    }
  }

  lemma NumbersKnown(ssrc: u32, t: Stream)
    requires Inv(ssrc, t) && Numbered(t)
    ensures var rw := Current(t.entry, ssrc).rewriter;
            && (rw.initialized <==> t.sent != [])
            && (rw.initialized ==>
                  rw.lastOutSeq == Wrap16(t.last) && OutSeq(rw, Wrap16(t.lastSource)) == Wrap16(t.last))
  {
  }

  lemma FirstNumber(rw: State, p: Packet, index: int)
    requires |p| >= 12 && !rw.initialized
    ensures OutSeq(Rebase(rw, p), Wrap16(index)) == Wrap16(index)
  {
  }

  lemma SwitchNumber(rw: State, p: Packet, last: int, index: int)
    requires |p| >= 12 && R.SeqOf(p) == Wrap16(index) && rw.initialized && rw.pendingKeyframe
    requires rw.lastOutSeq == Wrap16(last)
    ensures OutSeq(Rebase(rw, p), Wrap16(index)) == Wrap16(last + 1)
  {
    SwitchContinues(rw, p);
    WrapInner16(last, 1);
  }

  lemma RunningNumber(rw: State, p: Packet, lastSource: int, last: int, index: int)
    requires |p| >= 12 && rw.initialized && !rw.pendingKeyframe
    requires OutSeq(rw, Wrap16(lastSource)) == Wrap16(last)
    ensures OutSeq(Rebase(rw, p), Wrap16(index)) == Wrap16(last + (index - lastSource))
  {
    OffsetNext(rw.seqOffset, lastSource, index, last);
  }

  lemma RelayedAt(ssrc: u32, t: Stream, e: Event)
    requires Relays(t, ssrc, e)
    ensures Advance(t, ssrc, e).last == NextIndex(t, Opens(Current(t.entry, ssrc).rewriter), e.index)
  {
  }

  lemma NumberedStep(ssrc: u32, t: Stream, e: Event)
    requires Inv(ssrc, t) && Numbered(t) && WellFormed(e)
    ensures Numbered(Advance(t, ssrc, e))
  {
    if Relays(t, ssrc, e) {
      var u := Advance(t, ssrc, e);
      RelayNumber(ssrc, t, e);
      RelayedShift(ssrc, t, e);
      assert forall i :: 0 <= i < |t.sent| ==> u.sent[i] == t.sent[i];
    }
  }

  lemma AppendPosition(a: seq<Sent>, x: Sent)
    requires Bounded(a) && (a != [] && x.opens ==> x.index == a[|a| - 1].index + 1)
    ensures Bounded(a + [x])
    ensures Increasing(a + [x]) <==> Increasing(a) && (a != [] ==> a[|a| - 1].index < x.index)
  {
    var b := a + [x];
    assert forall i :: 0 <= i < |a| ==> b[i] == a[i];
    assert b[|a|] == x;
    if Increasing(b) {
      assert a != [] ==> b[|a| - 1].index < b[|a|].index;
      forall i | 0 < i < |a|
        ensures a[i - 1].index < a[i].index
      {
        assert b[i - 1].index < b[i].index;
      }
    }
  }

  lemma IncreasingStep(ssrc: u32, t: Stream, e: Event)
    requires Inv(ssrc, t) && Numbered(t) && Bounded(t.sent)
    ensures Bounded(Advance(t, ssrc, e).sent)
    ensures Increasing(Advance(t, ssrc, e).sent) <==>
              && Increasing(t.sent)
              && (Relays(t, ssrc, e) && !Opens(Current(t.entry, ssrc).rewriter) ==> t.lastSource < e.index)
  {
    if Relays(t, ssrc, e) {
      AppendPosition(t.sent, Advance(t, ssrc, e).sent[|t.sent|]);
    }
  }

  /** In every run, what the subscriber receives follows one unwrapped counter that advances by one at each switch; it
      strictly increases exactly when each segment's packets arrive in source order. */
  lemma {:induction false} SegmentPositions(ssrc: u32, es: seq<Event>)
    requires forall i :: 0 <= i < |es| ==> WellFormed(es[i])
    ensures Numbered(Play(ssrc, es)) && Bounded(Play(ssrc, es).sent)
    ensures Increasing(Play(ssrc, es).sent) <==> InOrder(ssrc, es)
  {
    if es != [] {
      var init, e := es[..|es| - 1], es[|es| - 1];
      SegmentPositions(ssrc, init);
      SingleLayerSegments(ssrc, init);
      NumberedStep(ssrc, Play(ssrc, init), e);
      IncreasingStep(ssrc, Play(ssrc, init), e);
    }
  }

  // ---------------------------------------------------------------- what must be forwarded

  /** The layer last subscribed to, the high one by default. */
  function Chosen(es: seq<Event>): Rid {
    if es == [] then HIGH
    else if es[|es| - 1].Subscribe? then es[|es| - 1].rid
    else Chosen(es[..|es| - 1])
  }

  /** After the events `es`, packet `e` has to be forwarded: it is whole, of the chosen layer, and either a keyframe or
      in a flow that has already begun. */
  predicate Due(es: seq<Event>, e: Event)
    decreases |es|, 1
  {
    && e.Video? && |e.packet| >= 12 && Chosen(es) != PAUSE && e.layer == Chosen(es)
    && (e.keyframe || Flowing(es))
  }

  /** Some packet had to be forwarded since the chosen layer was last changed. */
  predicate Flowing(es: seq<Event>)
    decreases |es|, 0
  {
    es != [] &&
    var init, e := es[..|es| - 1], es[|es| - 1];
    if e.Subscribe? then e.rid == Chosen(init) && Flowing(init) else Flowing(init) || Due(init, e)
  }

  /** The entry follows the requests, and its rewriter lets ordinary frames through exactly while the flow runs. */
  ghost predicate Follow(ssrc: u32, es: seq<Event>) {
    var cur := Current(Play(ssrc, es).entry, ssrc);
    cur.rid == Chosen(es) && (cur.rid != PAUSE ==> (!Opens(cur.rewriter) <==> Flowing(es)))
  }

  lemma {:induction false} EntryFollows(ssrc: u32, es: seq<Event>)
    ensures Follow(ssrc, es)
  {
    if es != [] {
      EntryFollows(ssrc, es[..|es| - 1]);
    }
  }

  /** Over every run, in terms of the requests and packets alone: a packet is forwarded exactly when it has at least 12
      bytes, belongs to the layer last subscribed to, that layer is not pause, and it is a keyframe or some packet was
      forwarded since that layer was chosen; forwarding it appends it, and nothing else ever is. */
  lemma ForwardedIffDue(ssrc: u32, es: seq<Event>, e: Event)
    ensures var t, u := Play(ssrc, es), Advance(Play(ssrc, es), ssrc, e);
            if Due(es, e) then
              |u.sent| == |t.sent| + 1 && u.sent[..|t.sent|] == t.sent && u.sent[|t.sent|].source == e.packet
            else u.sent == t.sent
  {
    EntryFollows(ssrc, es);
  }
}
