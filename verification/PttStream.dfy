/** Whole runs of one push-to-talk rewriter: the virtual stream a subscriber receives. Silence frames belong to it
    only where the caller of the clear broadcasts them; elsewhere they are produced, counted and thrown away. */
module PttStream {
  import opened Words
  import opened PttRewriter

  /** A call on the rewriter. `broadcast` says whether the caller sends the silence on; `index` is the packet's
      position in the sender's own stream, before the 16-bit wrap; `sender` is who the packet comes from. */
  datatype Event =
    | SwitchTo(user: UserId, now: Instant)
    | ClearFloor(now: Instant, broadcast: bool)
    | Media(packet: Packet, index: int, sender: UserId, keyframe: bool, now: Instant)

  ghost predicate WellFormed(e: Event) {
    e.Media? && |e.packet| >= 12 ==> SeqOf(e.packet) == Wrap16(e.index)
  }

  /** A packet handed to the subscribers. `index` is its unwrapped position in the virtual stream,
      `opens` marks silence frames and the first packet of a burst, `missing` counts the silence frames thrown
      away just before it. */
  datatype Sent = Sent(packet: Packet, index: int, burst: nat, source: Option<Packet>, opens: bool, missing: nat)

  /** The rewriter together with what it has sent; `dropped` counts the silence frames thrown away since. */
  datatype Stream = Stream(s: RewriteState, burst: nat, last: int, lastSource: int, sent: seq<Sent>, dropped: nat)

  const START := Stream(INITIAL, 0, 0, 0, [], 0)

  function Accepts(t: Stream, e: Event): bool {
    e.Media? && Verdict(t.s, e.packet, e.sender, e.keyframe).Ok?
  }

  /** The next position after a boundary, the source distance inside a burst. */
  function NextIndex(t: Stream, e: Event): int
    requires e.Media?
  {
    if t.s.awaitingFirstPacket then t.last + 1 else t.last + (e.index - t.lastSource)
  }

  function SilenceSent(t: Stream, frames: seq<Packet>): (r: seq<Sent>)
    ensures |r| == |frames|
    ensures forall i :: 0 <= i < |r| ==>
              r[i] == Sent(frames[i], t.last + 1 + i, t.burst, None, true, if i == 0 then t.dropped else 0)
  {
    seq(|frames|, i requires 0 <= i < |frames| =>
      Sent(frames[i], t.last + 1 + i, t.burst, None, true, if i == 0 then t.dropped else 0))
  }

  function Frames(k: Profile, s: RewriteState): seq<Packet> {
    if Flushes(k, s) then Silence(k, s, SILENCE_FLUSH_COUNT) else []
  }

  function Advance(k: Profile, t: Stream, e: Event): Stream {
    match e
    case SwitchTo(u, now) =>
      t.(s := Switch(k, t.s, u, now), burst := t.burst + 1)
    case ClearFloor(now, broadcast) =>
      var frames := Frames(k, t.s);
      if broadcast then
        t.(s := Clear(k, t.s, now), last := t.last + |frames|, sent := t.sent + SilenceSent(t, frames),
           dropped := if frames == [] then t.dropped else 0)
      else t.(s := Clear(k, t.s, now), last := t.last + |frames|, dropped := t.dropped + |frames|)
    case Media(p, n, sender, key, now) =>
      if Accepts(t, e) then
        Stream(AfterPacket(k, t.s, p, sender, key, now), t.burst, NextIndex(t, e), n,
               t.sent + [Sent(Rewritten(k, t.s, p, sender, key, now), NextIndex(t, e), t.burst, Some(p),
                              t.s.awaitingFirstPacket, t.dropped)], 0)
      else t
  }

  function Play(k: Profile, es: seq<Event>): Stream {
    if es == [] then START else Advance(k, Play(k, es[..|es| - 1]), es[|es| - 1])
  }

  lemma PlayAppend(k: Profile, es: seq<Event>, e: Event)
    ensures Play(k, es + [e]) == Advance(k, Play(k, es), e)
  {
    assert (es + [e])[..|es|] == es;
  }

  // ---------------------------------------------------------------- inside a burst

  predicate CarriesShift(k: Profile, s: RewriteState, x: Sent)
    requires x.source.Some?
  {
    && |x.packet| == |x.source.value| >= 12
    && SeqOf(x.packet) == VirtualSeq(s, SeqOf(x.source.value))
    && TsOf(x.packet) == VirtualTs(s, TsOf(x.source.value))
    && SsrcOf(x.packet) == k.virtualSsrc
    && x.packet[12..] == x.source.value[12..]
  }

  /** `r` is `p` under another header: same length, flags, payload type and payload, with the marker kept, and set in
      any case if asked for. */
  ghost predicate Reheaded(p: Packet, r: Packet, marked: bool) {
    && |r| == |p| >= 12 && r[12..] == p[12..] && r[0] == p[0] && r[1] % 0x80 == p[1] % 0x80
    && (r[1] >= 0x80 <==> marked || p[1] >= 0x80)
  }

  /** A 20 ms Opus frame of silence: version 2, payload type 111, no marker. */
  ghost predicate OpusSilence(r: Packet) {
    |r| == 15 && r[0] == 0x80 && r[1] == 111 && r[12..] == [0xf8, 0xff, 0xfe]
  }

  /** Everything sent is under the virtual SSRC. Of media, only the header changed, and the first packet of an audio
      burst is marked; everything else is silence. */
  ghost predicate Carried(k: Profile, x: Sent) {
    && |x.packet| >= 12 && SsrcOf(x.packet) == k.virtualSsrc
    && (if x.source.Some? then Reheaded(x.source.value, x.packet, x.opens && !k.requireKeyframe)
        else OpusSilence(x.packet))
  }

  /** Two packets of one burst were moved by the same distance. */
  ghost predicate SameShift(k: Profile, x: Sent, y: Sent)
    requires x.source.Some? && y.source.Some?
  {
    && |x.packet| == |x.source.value| >= 12 && |y.packet| == |y.source.value| >= 12
    && Wrap16(SeqOf(x.packet) - SeqOf(y.packet)) == Wrap16(SeqOf(x.source.value) - SeqOf(y.source.value))
    && Wrap32(TsOf(x.packet) - TsOf(y.packet)) == Wrap32(TsOf(x.source.value) - TsOf(y.source.value))
  }

  /** Media of the running burst sits at the current offsets; older bursts are closed. */
  ghost predicate Shifted(k: Profile, t: Stream) {
    && Aligned(k, t.sent)
    && (forall i :: 0 <= i < |t.sent| ==> t.sent[i].burst <= t.burst && Carried(k, t.sent[i]))
    && (forall i :: 0 <= i < |t.sent| && t.sent[i].source.Some? && t.sent[i].burst == t.burst ==>
          CarriesShift(k, t.s, t.sent[i]) && !t.s.awaitingFirstPacket)
  }

  /** All media of a closed or running burst moved together. */
  ghost predicate Aligned(k: Profile, sent: seq<Sent>) {
    forall i, j ::
      0 <= i < j < |sent| && sent[i].source.Some? && sent[j].source.Some? && sent[i].burst == sent[j].burst ==>
        SameShift(k, sent[i], sent[j])
  }

  lemma ShiftKeepsDifference(k: Profile, s: RewriteState, x: Sent, y: Sent)
    requires x.source.Some? && y.source.Some? && CarriesShift(k, s, x) && CarriesShift(k, s, y)
    ensures SameShift(k, x, y)
  {
    var a, b := x.source.value, y.source.value;
    ShiftDistance(s, SeqOf(a), SeqOf(b), TsOf(a), TsOf(b));
  }

  lemma ShiftDistance(s: RewriteState, a: u16, b: u16, c: u32, d: u32)
    ensures Wrap16(VirtualSeq(s, a) - VirtualSeq(s, b)) == Wrap16(a - b)
    ensures Wrap32(VirtualTs(s, c) - VirtualTs(s, d)) == Wrap32(c - d)
  {
    var u, v := s.virtualBaseSeq - s.originBaseSeq, s.virtualBaseTs - s.originBaseTs;
    ShiftSum(s, a, c);
    ShiftSum(s, b, d);
    WrapDifference16(a + u, b + u);
    WrapDifference32(c + v, d + v);
  }

  /** The two wrapping operations of the rewrite amount to one. */
  lemma ShiftSum(s: RewriteState, sequence: u16, ts: u32)
    ensures VirtualSeq(s, sequence) == Wrap16(sequence + (s.virtualBaseSeq - s.originBaseSeq))
    ensures VirtualTs(s, ts) == Wrap32(ts + (s.virtualBaseTs - s.originBaseTs))
  {
    WrapInner16(sequence - s.originBaseSeq, s.virtualBaseSeq);
    WrapInner32(ts - s.originBaseTs, s.virtualBaseTs);
  }

  lemma AcceptedCarriesShift(k: Profile, t: Stream, e: Event)
    requires Accepts(t, e)
    ensures var u := Advance(k, t, e); CarriesShift(k, u.s, u.sent[|t.sent|]) && Carried(k, u.sent[|t.sent|])
  {
    var b := Rebase(k, t.s, e.packet, e.now);
    PatchFields(e.packet, VirtualSeq(b, SeqOf(e.packet)), VirtualTs(b, TsOf(e.packet)), k.virtualSsrc,
                t.s.awaitingFirstPacket && !k.requireKeyframe);
  }

  lemma AlignedAppend(k: Profile, sent: seq<Sent>, x: Sent)
    requires Aligned(k, sent)
    requires x.source.Some? ==> forall i :: 0 <= i < |sent| && sent[i].source.Some? && sent[i].burst == x.burst ==>
               SameShift(k, sent[i], x)
    ensures Aligned(k, sent + [x])
  {
    var r := sent + [x];
    assert forall i :: 0 <= i < |sent| ==> r[i] == sent[i];
  }

  lemma {:induction false} AlignedSilence(k: Profile, sent: seq<Sent>, r: seq<Sent>)
    requires Aligned(k, sent) && forall i :: 0 <= i < |r| ==> r[i].source.None?
    ensures Aligned(k, sent + r)
    decreases r
  {
    if r == [] {
      assert sent + r == sent;
    } else {
      AlignedAppend(k, sent, r[0]);
      AlignedSilence(k, sent + [r[0]], r[1..]);
      assert sent + r == (sent + [r[0]]) + r[1..];
    }
  }

  /** What sat at the current offsets still does: an accepted packet moves them only to open a burst. */
  lemma MediaKeepsShift(k: Profile, t: Stream, e: Event, i: nat)
    requires Shifted(k, t) && Accepts(t, e) && i < |t.sent| && t.sent[i].source.Some? && t.sent[i].burst == t.burst
    ensures CarriesShift(k, Advance(k, t, e).s, t.sent[i])
  {
    var s, next := t.s, Advance(k, t, e).s;
    assert CarriesShift(k, s, t.sent[i]) && !s.awaitingFirstPacket;
    assert next.originBaseSeq == s.originBaseSeq && next.virtualBaseSeq == s.virtualBaseSeq;
    assert next.originBaseTs == s.originBaseTs && next.virtualBaseTs == s.virtualBaseTs;
  }

  lemma ShiftedMedia(k: Profile, t: Stream, e: Event)
    requires Shifted(k, t) && Accepts(t, e)
    ensures Shifted(k, Advance(k, t, e))
  {
    var u := Advance(k, t, e);
    var x := u.sent[|t.sent|];
    assert u.sent == t.sent + [x];
    AcceptedCarriesShift(k, t, e);
    forall i | 0 <= i < |t.sent| && t.sent[i].source.Some? && t.sent[i].burst == u.burst
      ensures CarriesShift(k, u.s, t.sent[i]) && SameShift(k, t.sent[i], x)
    {
      MediaKeepsShift(k, t, e, i);
      ShiftKeepsDifference(k, u.s, t.sent[i], x);
    }
    AlignedAppend(k, t.sent, x);
  }

  lemma ShiftedSilence(k: Profile, t: Stream, e: Event)
    requires Shifted(k, t) && e.ClearFloor? && e.broadcast && Flushes(k, t.s)
    ensures Shifted(k, Advance(k, t, e))
  {
    var frames, u := Silence(k, t.s, SILENCE_FLUSH_COUNT), Advance(k, t, e);
    var r := SilenceSent(t, frames);
    assert u.sent == t.sent + r;
    AlignedSilence(k, t.sent, r);
    SilenceCarried(k, t, frames);
    forall i | 0 <= i < |u.sent|
      ensures u.sent[i].burst <= u.burst && Carried(k, u.sent[i])
      ensures u.sent[i].source.Some? && u.sent[i].burst == u.burst ==>
                CarriesShift(k, u.s, u.sent[i]) && !u.s.awaitingFirstPacket
    {
      assert u.sent[i] == if i < |t.sent| then t.sent[i] else r[i - |t.sent|];
    }
  }

  lemma ShiftedStep(k: Profile, t: Stream, e: Event)
    requires Shifted(k, t)
    ensures Shifted(k, Advance(k, t, e))
  {
    if Accepts(t, e) {
      ShiftedMedia(k, t, e);
    } else if e.ClearFloor? && e.broadcast && Flushes(k, t.s) {
      ShiftedSilence(k, t, e);
    }
  }

  lemma SilenceCarried(k: Profile, t: Stream, frames: seq<Packet>)
    requires frames == Silence(k, t.s, SILENCE_FLUSH_COUNT)
    ensures var r := SilenceSent(t, frames); forall i :: 0 <= i < |r| ==> Carried(k, r[i])
  {
    forall i: nat | i < SILENCE_FLUSH_COUNT
      ensures |frames[i]| >= 12 && SsrcOf(frames[i]) == k.virtualSsrc && OpusSilence(frames[i])
    {
      SilenceNumbered(k, t.s, t.s.lastVirtualSeq, SILENCE_FLUSH_COUNT, i);
    }
  }

  /** In every run, however reordered: within a burst, differences of source sequence numbers and
      timestamps survive modulo 2^16 and 2^32, everything sent in any burst carries the virtual SSRC and is silence or
      a source packet with nothing but its header changed, and every packet of the current burst can be traced back by
      `ReverseSeq`. */
  lemma {:induction false} BurstsKeepSourceDistances(k: Profile, es: seq<Event>)
    ensures var t := Play(k, es);
            && Shifted(k, t)
            && forall i :: 0 <= i < |t.sent| && t.sent[i].source.Some? && t.sent[i].burst == t.burst ==>
                 ReverseSeq(t.s, SeqOf(t.sent[i].packet)) == SeqOf(t.sent[i].source.value)
  {
    if es != [] {
      BurstsKeepSourceDistances(k, es[..|es| - 1]);
      ShiftedStep(k, Play(k, es[..|es| - 1]), es[|es| - 1]);
    }
    var t := Play(k, es);
    forall i | 0 <= i < |t.sent| && t.sent[i].source.Some? && t.sent[i].burst == t.burst
      ensures ReverseSeq(t.s, SeqOf(t.sent[i].packet)) == SeqOf(t.sent[i].source.value)
    {
      ReverseInverts(t.s, SeqOf(t.sent[i].source.value));
    }
  }

  /** `ReverseSeq` and the rewrite are inverse bijections of the 16-bit numbers. */
  lemma ReverseInverts(s: RewriteState, sequence: u16)
    ensures ReverseSeq(s, VirtualSeq(s, sequence)) == sequence
    ensures VirtualSeq(s, ReverseSeq(s, sequence)) == sequence
  {
    var u := s.virtualBaseSeq - s.originBaseSeq;
    ShiftSum(s, sequence, 0);
    ReverseSum(s, VirtualSeq(s, sequence));
    ThereAndBack(sequence, u);
    ReverseSum(s, sequence);
    ShiftSum(s, ReverseSeq(s, sequence), 0);
    ThereAndBack(sequence, -u);
  }

  lemma ThereAndBack(x: u16, u: int)
    ensures Wrap16(Wrap16(x + u) - u) == x
  {
    WrapInner16(x + u, -u);
  }

  lemma ReverseSum(s: RewriteState, virtualSeq: u16)
    ensures ReverseSeq(s, virtualSeq) == Wrap16(virtualSeq - (s.virtualBaseSeq - s.originBaseSeq))
  {
    WrapInner16(virtualSeq - s.virtualBaseSeq, s.originBaseSeq);
  }

  /** A sender report taken at an accepted packet translates to the timestamp that packet was sent with. */
  lemma ReportsFollowMedia(k: Profile, t: Stream, e: Event)
    requires Accepts(t, e)
    ensures var u := Advance(k, t, e);
            |u.sent[|t.sent|].packet| >= 12 &&
            TranslateRtpTs(u.s, TsOf(e.packet)) == Some(TsOf(u.sent[|t.sent|].packet))
  {
    AcceptedCarriesShift(k, t, e);
  }

  /** In any run: a report can be translated exactly while a burst is open, that is, some packet of the current speaker
      was sent since the last switch; and its timestamp then moves as far as the burst's packets did. */
  lemma ReportsTranslate(k: Profile, es: seq<Event>, ts: u32)
    ensures var s := Play(k, es).s;
            && (TranslateRtpTs(s, ts).Some? <==> BurstOpen(k, es))
            && (TranslateRtpTs(s, ts).Some? ==> TranslateRtpTs(s, ts) == Some(VirtualTs(s, ts)))
  {
    OpenIffSpeaking(k, es);
  }

  /** A packet was accepted since the last switch, and no clear came since. */
  ghost predicate BurstOpen(k: Profile, es: seq<Event>) {
    es != [] &&
    var init, e := es[..|es| - 1], es[|es| - 1];
    match e
    case SwitchTo(_, _) => false
    case ClearFloor(_, _) => false
    case Media(_, _, _, _, _) => BurstOpen(k, init) || Accepts(Play(k, init), e)
  }

  lemma {:induction false} OpenIffSpeaking(k: Profile, es: seq<Event>)
    ensures var s := Play(k, es).s; BurstOpen(k, es) <==> s.speaker.Some? && !s.awaitingFirstPacket
  {
    if es != [] {
      OpenIffSpeaking(k, es[..|es| - 1]);
    }
  }

  // ---------------------------------------------------------------- across bursts

  /** The stream starts at 1, and at a burst or silence boundary steps by one more than the frames thrown away there. */
  ghost predicate Bounded(sent: seq<Sent>) {
    && (sent != [] ==> sent[0].index == 1)
    && (forall i :: 0 < i < |sent| && sent[i].opens ==> sent[i].index == sent[i - 1].index + 1 + sent[i].missing)
  }

  ghost predicate Increasing(sent: seq<Sent>) {
    forall i :: 0 < i < |sent| ==> sent[i - 1].index < sent[i].index
  }

  /** Positions strictly increase, by exactly one at every burst and silence boundary. */
  ghost predicate Continuous(sent: seq<Sent>) {
    && (sent != [] ==> sent[0].index == 1)
    && (forall i :: 0 < i < |sent| ==>
          sent[i - 1].index < sent[i].index && (sent[i].opens ==> sent[i].index == sent[i - 1].index + 1))
  }

  /** Nothing was thrown away, before any packet sent or since. */
  ghost predicate Complete(t: Stream) {
    t.dropped == 0 && forall i :: 0 <= i < |t.sent| ==> t.sent[i].missing == 0
  }

  /** Every clear that produced silence was broadcast. */
  ghost predicate EveryFlushBroadcast(k: Profile, es: seq<Event>) {
    es != [] ==>
      var t, e := Play(k, es[..|es| - 1]), es[|es| - 1];
      EveryFlushBroadcast(k, es[..|es| - 1]) && (e.ClearFloor? && Flushes(k, t.s) ==> e.broadcast)
  }

  /** Inside a burst, each accepted packet is ahead of the one before it. */
  ghost predicate InOrder(k: Profile, es: seq<Event>) {
    es != [] ==>
      var t, e := Play(k, es[..|es| - 1]), es[|es| - 1];
      && InOrder(k, es[..|es| - 1])
      && (Accepts(t, e) && !t.s.awaitingFirstPacket ==> t.lastSource < e.index)
  }

  /** The wire numbers follow the positions. */
  ghost predicate Numbered(t: Stream) {
    && t.s.lastVirtualSeq == Wrap16(t.last)
    && (t.sent == [] ==>
          t.last == 0 && t.s.lastVirtualTs == 0 && t.dropped == 0 && (t.s.speaker.Some? ==> t.s.awaitingFirstPacket))
    && (t.sent != [] ==> t.sent[|t.sent| - 1].index + t.dropped == t.last && t.sent[0].missing == 0)
    && (t.dropped > 0 && t.s.speaker.Some? ==> t.s.awaitingFirstPacket)
    && (forall i :: 0 <= i < |t.sent| && !t.sent[i].opens ==> t.sent[i].missing == 0)
    && (t.s.speaker.Some? ==>
          if t.s.awaitingFirstPacket then t.s.virtualBaseSeq == Wrap16(t.last + 1)
          else VirtualSeq(t.s, Wrap16(t.lastSource)) == Wrap16(t.last))
    && (forall i :: 0 <= i < |t.sent| ==>
          |t.sent[i].packet| >= 12 && SeqOf(t.sent[i].packet) == Wrap16(t.sent[i].index))
  }

  lemma SilenceFields(ssrc: u32, sequence: u16, ts: u32)
    ensures var f := SilenceFrame(ssrc, sequence, ts);
            SeqOf(f) == sequence && TsOf(f) == ts && SsrcOf(f) == ssrc && OpusSilence(f)
  {
    var p := [0x80, OPUS_PT] + Zeros(10) + OPUS_SILENCE;
    PatchFields(p, sequence, ts, ssrc, false);
    assert p[12..] == OPUS_SILENCE;
  }

  lemma {:induction false} SilenceNumbered(k: Profile, s: RewriteState, last: int, n: nat, i: nat)
    requires s.lastVirtualSeq == Wrap16(last) && i < n
    ensures var f := Silence(k, s, n)[i];
            && |f| >= 12 && SeqOf(f) == Wrap16(last + 1 + i)
            && TsOf(f) == Wrap32(s.lastVirtualTs + TS_GUARD_GAP_AUDIO * (i + 1))
            && SsrcOf(f) == k.virtualSsrc && OpusSilence(f)
  {
    if i == n - 1 {
      SilenceFields(k.virtualSsrc, Wrap16(s.lastVirtualSeq + n), Wrap32(s.lastVirtualTs + TS_GUARD_GAP_AUDIO * n));
      WrapInner16(last, n);
    } else {
      SilenceNumbered(k, s, last, n - 1, i);
    }
  }

  lemma ClearNumbered(k: Profile, t: Stream, e: Event)
    requires Numbered(t) && e.ClearFloor?
    ensures Numbered(Advance(k, t, e))
  {
    if Flushes(k, t.s) {
      var frames := Silence(k, t.s, SILENCE_FLUSH_COUNT);
      SilenceSentNumbered(k, t, frames);
      WrapInner16(t.last, SILENCE_FLUSH_COUNT);
    }
  }

  lemma SilenceSentNumbered(k: Profile, t: Stream, frames: seq<Packet>)
    requires t.s.lastVirtualSeq == Wrap16(t.last) && frames == Silence(k, t.s, SILENCE_FLUSH_COUNT)
    ensures var r := SilenceSent(t, frames);
            forall i :: 0 <= i < |r| ==> |r[i].packet| >= 12 && SeqOf(r[i].packet) == Wrap16(r[i].index)
  {
    forall i: nat | i < SILENCE_FLUSH_COUNT
      ensures |frames[i]| >= 12 && SeqOf(frames[i]) == Wrap16(t.last + 1 + i)
    {
      SilenceNumbered(k, t.s, t.last, SILENCE_FLUSH_COUNT, i);
    }
  }

  lemma MediaNumbered(k: Profile, t: Stream, e: Event)
    requires Numbered(t) && WellFormed(e) && Accepts(t, e)
    ensures Numbered(Advance(k, t, e))
  {
    var u := Advance(k, t, e);
    MediaWireNumber(k, t, e);
    var x := u.sent[|t.sent|];
    assert u.sent == t.sent + [x];
    assert forall i :: 0 <= i < |t.sent| ==> u.sent[i] == t.sent[i];
  }

  /** The wire number of an accepted packet is that of its position, and the state follows it. */
  lemma MediaWireNumber(k: Profile, t: Stream, e: Event)
    requires Numbered(t) && WellFormed(e) && Accepts(t, e)
    ensures var u := Advance(k, t, e);
            && |u.sent[|t.sent|].packet| >= 12 && SeqOf(u.sent[|t.sent|].packet) == Wrap16(u.last)
            && u.s.lastVirtualSeq == Wrap16(u.last) && VirtualSeq(u.s, Wrap16(e.index)) == Wrap16(u.last)
  {
    AcceptedCarriesShift(k, t, e);
    if t.s.awaitingFirstPacket {
      OpeningNumber(Rebase(k, t.s, e.packet, e.now), e.packet, t.last);
    } else {
      VirtualNext(t.s, t.lastSource, e.index, t.last);
    }
  }

  lemma OpeningNumber(s: RewriteState, p: Packet, last: int)
    requires |p| >= 12 && s.originBaseSeq == SeqOf(p) && s.virtualBaseSeq == Wrap16(last + 1)
    ensures VirtualSeq(s, SeqOf(p)) == Wrap16(last + 1)
  {
  }

  /** Inside a burst the wire number advances as far as the source does. */
  lemma VirtualNext(s: RewriteState, lastSource: int, index: int, last: int)
    requires VirtualSeq(s, Wrap16(lastSource)) == Wrap16(last)
    ensures VirtualSeq(s, Wrap16(index)) == Wrap16(last + (index - lastSource))
  {
    var u := s.virtualBaseSeq - s.originBaseSeq;
    ShiftSum(s, Wrap16(lastSource), 0);
    ShiftSum(s, Wrap16(index), 0);
    WrapInner16(lastSource, u);
    WrapInner16(index, u);
    WrapInner16(lastSource + u, index - lastSource);
    WrapInner16(last, index - lastSource);
  }

  lemma NumberedStep(k: Profile, t: Stream, e: Event)
    requires Numbered(t) && WellFormed(e)
    ensures Numbered(Advance(k, t, e))
  {
    if e.ClearFloor? {
      ClearNumbered(k, t, e);
    } else if Accepts(t, e) {
      MediaNumbered(k, t, e);
    } else if e.SwitchTo? {
      WrapInner16(t.last, 1);
    }
  }

  lemma AppendOne(a: seq<Sent>, last: int, x: Sent)
    requires Bounded(a) && if a == [] then last == 0 else a[|a| - 1].index + x.missing == last
    requires a == [] || x.opens ==> x.index == last + 1
    ensures Bounded(a + [x])
    ensures Increasing(a + [x]) <==> Increasing(a) && last - x.missing < x.index
  {
    var b := a + [x];
    assert forall i :: 0 <= i < |a| ==> b[i] == a[i];
    assert b[|a|] == x;
    if Increasing(b) && a != [] {
      assert b[|a| - 1].index < b[|a|].index;
    }
    if Increasing(b) {
      forall i | 0 < i < |a|
        ensures a[i - 1].index < a[i].index
      {
        assert b[i - 1].index < b[i].index;
      }
    }
  }

  lemma {:induction false} AppendSilence(a: seq<Sent>, last: int, r: seq<Sent>)
    requires Bounded(a)
    requires if a == [] then last == 0 && (r != [] ==> r[0].missing == 0)
             else r != [] ==> a[|a| - 1].index + r[0].missing == last
    requires forall i :: 0 <= i < |r| ==> r[i].opens && r[i].index == last + 1 + i && (i > 0 ==> r[i].missing == 0)
    ensures Bounded(a + r) && (Increasing(a + r) <==> Increasing(a))
    decreases r
  {
    if r == [] {
      assert a + r == a;
    } else {
      AppendOne(a, last, r[0]);
      AppendSilence(a + [r[0]], last + 1, r[1..]);
      assert a + r == (a + [r[0]]) + r[1..];
    }
  }

  /** One more event keeps the stream increasing exactly when an accepted in-burst packet moves forward. */
  lemma IncreasingStep(k: Profile, t: Stream, e: Event)
    requires Numbered(t) && Bounded(t.sent)
    ensures Bounded(Advance(k, t, e).sent)
    ensures Increasing(Advance(k, t, e).sent) <==>
              Increasing(t.sent) && (Accepts(t, e) && !t.s.awaitingFirstPacket ==> t.lastSource < e.index)
  {
    var u := Advance(k, t, e);
    if Accepts(t, e) {
      AppendOne(t.sent, t.last, u.sent[|t.sent|]);
    } else if e.ClearFloor? && e.broadcast {
      AppendSilence(t.sent, t.last, SilenceSent(t, Frames(k, t.s)));
    }
  }

  /** One more event keeps the stream complete exactly when it does not throw silence away. */
  lemma CompleteStep(k: Profile, t: Stream, e: Event)
    ensures Complete(Advance(k, t, e)) <==> Complete(t) && (e.ClearFloor? && Flushes(k, t.s) ==> e.broadcast)
  {
    var u := Advance(k, t, e);
    assert forall i :: 0 <= i < |t.sent| ==> u.sent[i] == t.sent[i];
    if t.dropped > 0 && u.dropped == 0 {
      assert u.sent[|t.sent|].missing == t.dropped;
    }
  }

  lemma UnitSteps(sent: seq<Sent>)
    requires Bounded(sent) && (sent != [] ==> sent[0].missing == 0)
    requires forall i :: 0 <= i < |sent| && !sent[i].opens ==> sent[i].missing == 0
    ensures Continuous(sent) <==> Increasing(sent) && forall i :: 0 <= i < |sent| ==> sent[i].missing == 0
  {
    if Continuous(sent) {
      forall i | 0 <= i < |sent|
        ensures sent[i].missing == 0
      {
        if i > 0 && sent[i].opens {
          assert sent[i].index == sent[i - 1].index + 1;
        }
      }
    }
  }

  /** The wire numbers of what subscribers receive follow positions that start at 1 and, at every boundary, step by
      one plus the frames thrown away there; they strictly increase exactly when every burst's accepted packets arrive
      in source order; nothing is thrown away exactly when every flushing clear is broadcast. */
  lemma {:induction false} VirtualStreamSteps(k: Profile, es: seq<Event>)
    requires forall i :: 0 <= i < |es| ==> WellFormed(es[i])
    ensures Numbered(Play(k, es)) && Bounded(Play(k, es).sent)
    ensures Increasing(Play(k, es).sent) <==> InOrder(k, es)
    ensures Complete(Play(k, es)) <==> EveryFlushBroadcast(k, es)
  {
    if es != [] {
      var init := es[..|es| - 1];
      VirtualStreamSteps(k, init);
      NumberedStep(k, Play(k, init), es[|es| - 1]);
      IncreasingStep(k, Play(k, init), es[|es| - 1]);
      CompleteStep(k, Play(k, init), es[|es| - 1]);
    }
  }

  /** Continuity: what subscribers receive strictly increases with unit steps at every boundary, and owes nothing to
      the next one, exactly when bursts arrive in source order and every flushing clear was broadcast. */
  lemma VirtualStreamContinuity(k: Profile, es: seq<Event>)
    requires forall i :: 0 <= i < |es| ==> WellFormed(es[i])
    ensures var t := Play(k, es);
            Continuous(t.sent) && t.dropped == 0 <==> InOrder(k, es) && EveryFlushBroadcast(k, es)
  {
    VirtualStreamSteps(k, es);
    UnitSteps(Play(k, es).sent);
  }

  /** The rewriter continues from the last packet processed, not from the highest: if a burst ends on a
      late packet, the next burst opens with a wire number the late packet's successor already used. */
  lemma LateLastPacketIsReused(k: Profile, t: Stream, i: nat, user: UserId, now: Instant, e: Event)
    requires Numbered(t) && i < |t.sent| && t.sent[i].index == t.last + 1
    requires WellFormed(e) && Accepts(Advance(k, t, SwitchTo(user, now)), e)
    ensures var u := Advance(k, Advance(k, t, SwitchTo(user, now)), e);
            |u.sent[|t.sent|].packet| >= 12 && SeqOf(u.sent[|t.sent|].packet) == SeqOf(u.sent[i].packet)
  {
    var sw := Advance(k, t, SwitchTo(user, now));
    NumberedStep(k, t, SwitchTo(user, now));
    NumberedStep(k, sw, e);
    var u := Advance(k, sw, e);
    assert u.sent[i] == t.sent[i] && u.sent[|t.sent|].index == t.last + 1;
  }

  /** A run that gets there: "A" sends its packets 10, 12, 11, then "B" takes over. */
  function LateRun(): (es: seq<Event>) {
    [SwitchTo("A", 0), Sample(10, "A"), Sample(12, "A"), Sample(11, "A"), SwitchTo("B", 0), Sample(50, "B")]
  }

  function Sample(n: u16, sender: UserId): Event {
    Media(SilenceFrame(7, n, 0), n, sender, false, 0)
  }

  lemma PlayNext(k: Profile, es: seq<Event>, i: nat)
    requires i < |es|
    ensures Play(k, es[..i + 1]) == Advance(k, Play(k, es[..i]), es[i])
  {
    assert es[..i + 1][..i] == es[..i];
  }

  /** An accepted packet is sent at the next position. */
  lemma SampleSent(k: Profile, t: Stream, n: u16, sender: UserId)
    requires !k.requireKeyframe && t.s.speaker == Some(sender) && !t.s.pendingKeyframe
    ensures var u, e := Advance(k, t, Sample(n, sender)), Sample(n, sender);
            && |u.sent| == |t.sent| + 1 && u.sent[..|t.sent|] == t.sent
            && u.sent[|t.sent|].index == u.last == NextIndex(t, e) && u.lastSource == n
            && u.s.speaker == Some(sender) && !u.s.pendingKeyframe && !u.s.awaitingFirstPacket
  {
  }

  function ThreeSamples(k: Profile, t: Stream): Stream {
    Advance(k, Advance(k, Advance(k, t, Sample(10, "A")), Sample(12, "A")), Sample(11, "A"))
  }

  lemma LateBurst(k: Profile, t: Stream)
    requires !k.requireKeyframe && t.s.speaker == Some("A") && t.s.awaitingFirstPacket && !t.s.pendingKeyframe
    requires t.last == 0 && t.sent == []
    ensures var u := ThreeSamples(k, t);
            |u.sent| == 3 && u.sent[1].index == 3 && u.last == 2
  {
    SampleSent(k, t, 10, "A");
    var t1 := Advance(k, t, Sample(10, "A"));
    SampleSent(k, t1, 12, "A");
    var t2 := Advance(k, t1, Sample(12, "A"));
    SampleSent(k, t2, 11, "A");
    assert ThreeSamples(k, t).sent[..2] == t2.sent;
  }

  lemma LateRunPlays(k: Profile)
    ensures var t := ThreeSamples(k, Advance(k, START, SwitchTo("A", 0)));
            Play(k, LateRun()) == Advance(k, Advance(k, t, SwitchTo("B", 0)), Sample(50, "B"))
  {
    var es := LateRun();
    assert es[..6] == es && es[..0] == [];
    PlayNext(k, es, 0);
    PlayNext(k, es, 1);
    PlayNext(k, es, 2);
    PlayNext(k, es, 3);
    PlayNext(k, es, 4);
    PlayNext(k, es, 5);
  }

  lemma SampleWellFormed(n: u16, sender: UserId)
    ensures WellFormed(Sample(n, sender))
  {
    SilenceFields(7, n, 0);
  }

  lemma LateRunPositions(k: Profile)
    requires !k.requireKeyframe
    ensures var t := Play(k, LateRun()); |t.sent| == 4 && t.sent[1].index == 3 && t.sent[3].index == 3
  {
    LateRunPlays(k);
    var start := Advance(k, START, SwitchTo("A", 0));
    LateBurst(k, start);
    var t := Advance(k, ThreeSamples(k, start), SwitchTo("B", 0));
    SampleSent(k, t, 50, "B");
    assert Play(k, LateRun()).sent[..3] == t.sent;
  }

  /** On that run the wire number 3 is sent twice: for "A"'s packet 12 and for "B"'s first packet. */
  lemma LateRunReuses(ssrc: u32)
    ensures var t := Play(AudioProfile(ssrc), LateRun());
            && |t.sent| == 4 && |t.sent[1].packet| >= 12 && |t.sent[3].packet| >= 12
            && SeqOf(t.sent[1].packet) == 3 && SeqOf(t.sent[3].packet) == 3
  {
    SampleWellFormed(10, "A");
    SampleWellFormed(12, "A");
    SampleWellFormed(11, "A");
    SampleWellFormed(50, "B");
    VirtualStreamSteps(AudioProfile(ssrc), LateRun());
    LateRunPositions(AudioProfile(ssrc));
  }

  /** Silence thrown away between two bursts: "A" sends one packet, the clear is not broadcast, "B" sends one. */
  function QuietRun(at: Instant): seq<Event> {
    ThenQuietly([SwitchTo("A", at)] + [Sample(10, "A")], at)
  }

  function ThenQuietly(es: seq<Event>, at: Instant): seq<Event> {
    es + [ClearFloor(at, false)] + [SwitchTo("B", at)] + [Sample(50, "B")]
  }

  lemma QuietRunPlays(k: Profile, at: Instant)
    ensures var t := Advance(k, Advance(k, START, SwitchTo("A", at)), Sample(10, "A"));
            Play(k, QuietRun(at)) ==
            Advance(k, Advance(k, Advance(k, t, ClearFloor(at, false)), SwitchTo("B", at)), Sample(50, "B"))
  {
    var es := [SwitchTo("A", at)];
    assert [] + es == es;
    PlayAppend(k, [], SwitchTo("A", at));
    PlayAppend(k, es, Sample(10, "A"));
    PlayAppend(k, es + [Sample(10, "A")], ClearFloor(at, false));
    PlayAppend(k, es + [Sample(10, "A")] + [ClearFloor(at, false)], SwitchTo("B", at));
    PlayAppend(k, es + [Sample(10, "A")] + [ClearFloor(at, false)] + [SwitchTo("B", at)], Sample(50, "B"));
  }

  lemma FirstSampleNumber(k: Profile, at: Instant)
    requires !k.requireKeyframe
    ensures var t := Advance(k, Advance(k, START, SwitchTo("A", at)), Sample(10, "A"));
            && |t.sent| == 1 && t.sent[0].index == 1 && t.last == 1 && t.dropped == 0
            && t.s.lastVirtualSeq == 1 && t.s.speaker == Some("A")
  {
    var t := Advance(k, START, SwitchTo("A", at));
    assert Numbered(START) && Numbered(t);
    SampleWellFormed(10, "A");
    SampleSent(k, t, 10, "A");
    NumberedStep(k, t, Sample(10, "A"));
  }

  /** On that run the subscribers receive positions 1 and 5: three numbers are missing. */
  lemma QuietRunSkipsThree(ssrc: u32, at: Instant)
    ensures var t := Play(AudioProfile(ssrc), QuietRun(at));
            && |t.sent| == 2 && t.sent[0].index == 1 && t.sent[1].index == 5 && t.sent[1].missing == 3
            && !Continuous(t.sent)
  {
    var k := AudioProfile(ssrc);
    QuietRunPlays(k, at);
    FirstSampleNumber(k, at);
    var t := Advance(k, Advance(k, START, SwitchTo("A", at)), Sample(10, "A"));
    var u := Advance(k, Advance(k, t, ClearFloor(at, false)), SwitchTo("B", at));
    assert u.sent == t.sent && u.last == 4 && u.dropped == 3 && !u.s.pendingKeyframe;
    SampleSent(k, u, 50, "B");
    var w := Advance(k, u, Sample(50, "B"));
    assert w.sent[0] == w.sent[..1][0] == t.sent[0] && w.sent[1].opens;
  }

  // ---------------------------------------------------------------- when a clear sends silence

  /** Some packet of the run was sent on. */
  predicate Spoken(k: Profile, es: seq<Event>) {
    es != [] && (Spoken(k, es[..|es| - 1]) || Accepts(Play(k, es[..|es| - 1]), es[|es| - 1]))
  }

  /** The last packet produced, media or silence. */
  function LastProduced(k: Profile, es: seq<Event>): Option<Packet> {
    if es == [] then None
    else
      var init, e := es[..|es| - 1], es[|es| - 1];
      var s := Play(k, init).s;
      if Accepts(Play(k, init), e) then Some(Rewritten(k, s, e.packet, e.sender, e.keyframe, e.now))
      else if e.ClearFloor? && Frames(k, s) != [] then Some(Frames(k, s)[SILENCE_FLUSH_COUNT - 1])
      else LastProduced(k, init)
  }

  /** Number 0 at timestamp 0. */
  predicate AllZero(p: Packet) {
    |p| >= 12 && SeqOf(p) == 0 && TsOf(p) == 0
  }

  /** The state's last number and timestamp are those of `p`. */
  predicate LeftBy(s: RewriteState, p: Packet) {
    |p| >= 12 && SeqOf(p) == s.lastVirtualSeq && TsOf(p) == s.lastVirtualTs
  }

  lemma MediaLeaves(k: Profile, s: RewriteState, e: Event)
    requires e.Media? && Verdict(s, e.packet, e.sender, e.keyframe).Ok?
    ensures LeftBy(AfterPacket(k, s, e.packet, e.sender, e.keyframe, e.now),
                   Rewritten(k, s, e.packet, e.sender, e.keyframe, e.now))
  {
    var b := Rebase(k, s, e.packet, e.now);
    PatchFields(e.packet, VirtualSeq(b, SeqOf(e.packet)), VirtualTs(b, TsOf(e.packet)), k.virtualSsrc,
                s.awaitingFirstPacket && !k.requireKeyframe);
  }

  lemma SilenceLeaves(k: Profile, s: RewriteState, now: Instant)
    requires Flushes(k, s)
    ensures LeftBy(Clear(k, s, now), Frames(k, s)[SILENCE_FLUSH_COUNT - 1])
  {
    SilenceNumbered(k, s, s.lastVirtualSeq, SILENCE_FLUSH_COUNT, SILENCE_FLUSH_COUNT - 1);
  }

  /** The rewriter knows number and timestamp of the last packet, and has zeros before the first. */
  predicate Knows(s: RewriteState, last: Option<Packet>) {
    if last.Some? then LeftBy(s, last.value) else s.lastVirtualSeq == 0 && s.lastVirtualTs == 0
  }

  lemma KnowsStep(k: Profile, t: Stream, e: Event, last: Option<Packet>)
    requires Knows(t.s, last) && !Accepts(t, e) && !(e.ClearFloor? && Flushes(k, t.s))
    ensures Knows(Advance(k, t, e).s, last)
  {
  }

  lemma {:induction false} LastKnown(k: Profile, es: seq<Event>)
    ensures Knows(Play(k, es).s, LastProduced(k, es)) && (LastProduced(k, es).Some? <==> Spoken(k, es))
  {
    if es != [] {
      var init, e := es[..|es| - 1], es[|es| - 1];
      var t := Play(k, init);
      LastKnown(k, init);
      if Accepts(t, e) {
        MediaLeaves(k, t.s, e);
      } else if e.ClearFloor? && Flushes(k, t.s) {
        SilenceLeaves(k, t.s, e.now);
      } else {
        KnowsStep(k, t, e, LastProduced(k, init));
      }
    }
  }

  /** Over every run: clearing an audio rewriter produces three frames of silence exactly when something has been sent
      and the last packet produced was not number 0 at timestamp 0; clearing a video rewriter produces none. */
  lemma SilenceIff(k: Profile, es: seq<Event>)
    ensures Spoken(k, es) ==> LastProduced(k, es).Some?
    ensures |Frames(k, Play(k, es).s)| ==
            if !k.requireKeyframe && Spoken(k, es) && !AllZero(LastProduced(k, es).value) then 3 else 0
  {
    LastKnown(k, es);
  }

  /** The speaker's first packet is followed by the one before it, with the same timestamp. */
  predicate Swapped(user: UserId, first: Event, late: Event) {
    && first.Media? && late.Media? && |first.packet| >= 12 && |late.packet| >= 12
    && first.sender == user && late.sender == user
    && TsOf(first.packet) == TsOf(late.packet) && SeqOf(first.packet) == Wrap16(SeqOf(late.packet) + 1)
  }

  lemma LateNumber(s: RewriteState, sequence: u16, ts: u32)
    requires s.virtualBaseSeq == 1 && s.virtualBaseTs == 0
    requires s.originBaseTs == ts && s.originBaseSeq == Wrap16(sequence + 1)
    ensures VirtualSeq(s, sequence) == 0 && VirtualTs(s, ts) == 0
  {
  }

  lemma ZeroBurst(k: Profile, t: Stream, user: UserId, first: Event, late: Event)
    requires !k.requireKeyframe && t.s.speaker == Some(user) && !t.s.pendingKeyframe && t.s.awaitingFirstPacket
    requires t.s.virtualBaseSeq == 1 && t.s.virtualBaseTs == 0 && Swapped(user, first, late)
    ensures var u := Advance(k, t, first);
            var w := Advance(k, u, late);
            && Accepts(u, late) && |w.sent| == |t.sent| + 2 && w.s.lastVirtualSeq == 0 && w.s.lastVirtualTs == 0
  {
    var u := Advance(k, t, first);
    assert u.s.originBaseSeq == SeqOf(first.packet) && u.s.originBaseTs == TsOf(first.packet);
    assert u.s.virtualBaseSeq == 1 && u.s.virtualBaseTs == 0 && !u.s.awaitingFirstPacket;
    LateNumber(u.s, SeqOf(late.packet), TsOf(late.packet));
  }

  /** The exception occurs: whenever the first two packets of the very first burst come swapped, with one timestamp,
      the second goes out as number 0 at timestamp 0, and a clear right after it produces no silence. */
  lemma SpokenWithoutSilence(ssrc: u32, user: UserId, at: Instant, first: Event, late: Event)
    requires Swapped(user, first, late)
    ensures var k, es := AudioProfile(ssrc), [] + [SwitchTo(user, at)] + [first] + [late];
            Spoken(k, es) && |Play(k, es).sent| == 2 && Frames(k, Play(k, es).s) == []
  {
    var k, es := AudioProfile(ssrc), [] + [SwitchTo(user, at)];
    PlayAppend(k, [], SwitchTo(user, at));
    PlayAppend(k, es, first);
    PlayAppend(k, es + [first], late);
    ZeroBurst(k, Play(k, es), user, first, late);
    assert (es + [first] + [late])[..|es| + 1] == es + [first];
  }

  // ---------------------------------------------------------------- timestamp gaps

  /** The silence after an audio burst steps by 960 ticks from the last packet. */
  lemma SilenceSteps(ssrc: u32, s: RewriteState, i: nat)
    requires i < SILENCE_FLUSH_COUNT
    ensures var f := Silence(AudioProfile(ssrc), s, SILENCE_FLUSH_COUNT)[i];
            && |f| >= 12 && SsrcOf(f) == ssrc
            && SeqOf(f) == Wrap16(s.lastVirtualSeq + i + 1) && TsOf(f) == Wrap32(s.lastVirtualTs + 960 * (i + 1))
  {
    SilenceNumbered(AudioProfile(ssrc), s, s.lastVirtualSeq, SILENCE_FLUSH_COUNT, i);
  }

  /** From the last packet of an audio burst to the first of the next: max(2880, 48 per idle millisecond)
      ticks. Before anything was sent there is no silence, and only the excess over 2880 remains. */
  lemma AudioGap(ssrc: u32, s: RewriteState, cleared: Instant, user: UserId, switched: Instant, p: Packet, now: Instant)
    requires |p| >= 12
    ensures var k := AudioProfile(ssrc);
            var idle := SatMul32(ElapsedMs(cleared, switched), 48);
            var next := Switch(k, Clear(k, s, cleared), user, switched);
            && Verdict(next, p, user, false).Ok?
            && TsOf(Rewritten(k, next, p, user, false, now)) ==
                 Wrap32(s.lastVirtualTs + if Flushes(k, s) then Max(2880, idle) else SatSub(Max(960, idle), 2880))
  {
    var k := AudioProfile(ssrc);
    var next := Switch(k, Clear(k, s, cleared), user, switched);
    AudioBase(ssrc, s, cleared, user, switched);
    FirstPacketTs(k, next, p, user, false, now);
  }

  /** A switch without a clear since the last one, by preemption or a repeated grant: the next audio burst opens with
      exactly the timestamp of the last packet sent. */
  lemma AudioGapWithoutClear(ssrc: u32, s: RewriteState, user: UserId, switched: Instant, p: Packet, now: Instant)
    requires |p| >= 12 && s.clearedAt.None?
    ensures var k := AudioProfile(ssrc);
            var next := Switch(k, s, user, switched);
            Verdict(next, p, user, false).Ok? && TsOf(Rewritten(k, next, p, user, false, now)) == s.lastVirtualTs
  {
    FirstPacketTs(AudioProfile(ssrc), Switch(AudioProfile(ssrc), s, user, switched), p, user, false, now);
  }

  /** From any switch until the next clear, no clear time is on record. */
  lemma {:induction false} ClearTimeForgotten(k: Profile, es: seq<Event>, m: nat)
    requires m < |es| && es[m].SwitchTo? && forall i :: m < i < |es| ==> !es[i].ClearFloor?
    ensures Play(k, es).s.clearedAt.None?
  {
    var init := es[..|es| - 1];
    if m < |es| - 1 {
      assert forall i :: 0 <= i < |init| ==> init[i] == es[i];
      ClearTimeForgotten(k, init, m);
    }
  }

  /** From any clear until the next switch, no switch time is on record. */
  lemma {:induction false} SwitchTimeForgotten(k: Profile, es: seq<Event>, m: nat)
    requires m < |es| && es[m].ClearFloor? && forall i :: m < i < |es| ==> !es[i].SwitchTo?
    ensures Play(k, es).s.switchedAt.None? && Play(k, es).s.speaker.None?
  {
    var init := es[..|es| - 1];
    if m < |es| - 1 {
      assert forall i :: 0 <= i < |init| ==> init[i] == es[i];
      SwitchTimeForgotten(k, init, m);
    }
  }

  lemma AudioBase(ssrc: u32, s: RewriteState, cleared: Instant, user: UserId, switched: Instant)
    ensures var k := AudioProfile(ssrc);
            var idle := SatMul32(ElapsedMs(cleared, switched), 48);
            Switch(k, Clear(k, s, cleared), user, switched).virtualBaseTs ==
              Wrap32(s.lastVirtualTs + if Flushes(k, s) then Max(2880, idle) else SatSub(Max(960, idle), 2880))
  {
    var idle := SatMul32(ElapsedMs(cleared, switched), 48);
    WrapInner32(s.lastVirtualTs + 2880, SatSub(Max(idle, 960), 2880));
  }

  lemma FirstPacketTs(k: Profile, s: RewriteState, p: Packet, user: UserId, key: bool, now: Instant)
    requires |p| >= 12 && s.awaitingFirstPacket && Verdict(s, p, user, key).Ok?
    ensures TsOf(Rewritten(k, s, p, user, key, now)) == Wrap32(s.virtualBaseTs + PendingTicks(k, s, now))
  {
    var b := Rebase(k, s, p, now);
    PatchFields(p, VirtualSeq(b, SeqOf(p)), VirtualTs(b, TsOf(p)), k.virtualSsrc,
                s.awaitingFirstPacket && !k.requireKeyframe);
    assert Wrap32(TsOf(p) - b.originBaseTs) == 0;
  }

  /** Video waits for a keyframe: nothing else is sent, and nothing else changes the rewriter. The
      keyframe lands max(3000, 90 per idle millisecond) after the last packet, plus 90 per millisecond
      of waiting once that exceeds 50. */
  lemma VideoGap(ssrc: u32, s: RewriteState, cleared: Instant, user: UserId, switched: Instant,
                 p: Packet, key: bool, now: Instant)
    requires |p| >= 12
    ensures var k := VideoProfile(ssrc);
            var idle, wait := SatMul32(ElapsedMs(cleared, switched), 90), ElapsedMs(switched, now);
            var next := Switch(k, Clear(k, s, cleared), user, switched);
            if key then
              && Verdict(next, p, user, key).Ok?
              && TsOf(Rewritten(k, next, p, user, key, now)) ==
                   Wrap32(s.lastVirtualTs + Max(3000, idle) + if wait > 50 then SatMul32(wait, 90) else 0)
            else
              && Verdict(next, p, user, key).PendingKeyframe?
              && AfterPacket(k, next, p, user, key, now) == next
  {
    var k := VideoProfile(ssrc);
    if key {
      var next := Switch(k, Clear(k, s, cleared), user, switched);
      FirstPacketTs(k, next, p, user, key, now);
      WrapInner32(s.lastVirtualTs + DynamicGap(k, Clear(k, s, cleared), 90, switched), PendingTicks(k, next, now));
    }
  }

  /** Without a clear, video opens one guard gap after the last packet, plus the wait for the keyframe. */
  lemma VideoGapWithoutClear(ssrc: u32, s: RewriteState, user: UserId, switched: Instant, p: Packet, now: Instant)
    requires |p| >= 12 && s.clearedAt.None?
    ensures var k, wait := VideoProfile(ssrc), ElapsedMs(switched, now);
            var next := Switch(k, s, user, switched);
            && Verdict(next, p, user, true).Ok?
            && TsOf(Rewritten(k, next, p, user, true, now)) ==
                 Wrap32(s.lastVirtualTs + 3000 + if wait > 50 then SatMul32(wait, 90) else 0)
  {
    var k := VideoProfile(ssrc);
    var next := Switch(k, s, user, switched);
    FirstPacketTs(k, next, p, user, true, now);
    WrapInner32(s.lastVirtualTs + 3000, PendingTicks(k, next, now));
  }
}
