/** The push-to-talk rewriter: packets of successive speakers become one virtual RTP stream. */
module PttRewriter {
  import opened Words

  type Packet = seq<u8>

  const TS_GUARD_GAP_AUDIO: u32 := 960
  const TS_GUARD_GAP_VIDEO: u32 := 3000
  const OPUS_SILENCE: seq<u8> := [0xf8, 0xff, 0xfe]
  const OPUS_PT: u8 := 111
  const SILENCE_FLUSH_COUNT := 3

  datatype RewriteResult = Ok | PendingKeyframe | Skip

  /** What is fixed when a rewriter is created. */
  datatype Profile = Profile(virtualSsrc: u32, tsGuardGap: u32, requireKeyframe: bool)

  function AudioProfile(ssrc: u32): Profile {
    Profile(ssrc, TS_GUARD_GAP_AUDIO, false)
  }

  function VideoProfile(ssrc: u32): Profile {
    Profile(ssrc, TS_GUARD_GAP_VIDEO, true)
  }

  datatype RewriteState = RewriteState(
    speaker: Option<UserId>,
    originBaseSeq: u16, originBaseTs: u32,
    virtualBaseSeq: u16, virtualBaseTs: u32,
    lastVirtualSeq: u16, lastVirtualTs: u32,
    awaitingFirstPacket: bool, pendingKeyframe: bool,
    clearedAt: Option<Instant>, switchedAt: Option<Instant>)

  const INITIAL := RewriteState(None, 0, 0, 0, 0, 0, 0, false, false, None, None)

  // ---------------------------------------------------------------- packet fields

  function SeqOf(p: Packet): u16
    requires |p| >= 12
  {
    U16At(p, 2)
  }

  function TsOf(p: Packet): u32
    requires |p| >= 12
  {
    U32At(p, 4)
  }

  function SsrcOf(p: Packet): u32
    requires |p| >= 12
  {
    U32At(p, 8)
  }

  /** Overwrites sequence number, timestamp and SSRC, and sets the marker bit if asked. */
  function Patch(p: Packet, sequence: u16, ts: u32, ssrc: u32, marker: bool): (r: Packet)
    requires |p| >= 12
    ensures |r| == |p|
  {
    [p[0], if marker && p[1] < 0x80 then p[1] + 0x80 else p[1]] + Be16(sequence) + Be32(ts) + Be32(ssrc) + p[12..]
  }

  lemma PatchFields(p: Packet, sequence: u16, ts: u32, ssrc: u32, marker: bool)
    requires |p| >= 12
    ensures var r := Patch(p, sequence, ts, ssrc, marker);
            && SeqOf(r) == sequence && TsOf(r) == ts && SsrcOf(r) == ssrc && r[12..] == p[12..] && r[0] == p[0]
            && r[1] % 0x80 == p[1] % 0x80 && (r[1] >= 0x80 <==> marker || p[1] >= 0x80)
  {
    var r := Patch(p, sequence, ts, ssrc, marker);
    assert r[2..4] == Be16(sequence) && r[4..8] == Be32(ts) && r[8..12] == Be32(ssrc);
    Be16At(r, 2, sequence);
    Be32At(r, 4, ts);
    Be32At(r, 8, ssrc);
  }

  function SilenceFrame(ssrc: u32, sequence: u16, ts: u32): (p: Packet)
    ensures |p| == 15
  {
    Patch([0x80, OPUS_PT] + Zeros(10) + OPUS_SILENCE, sequence, ts, ssrc, false)
  }

  // ---------------------------------------------------------------- transitions

  /** `elapsed().as_millis() as u32`. */
  function ElapsedMs(since: Instant, now: Instant): u32 {
    Wrap32(SatSub(now, since) / 1_000_000)
  }

  /** `saturating_mul` on u32. */
  function SatMul32(a: u32, b: u32): u32 {
    Min(a * b, 0xFFFF_FFFF)
  }

  /** RTP ticks that stand for the idle time since the last clear, at least one guard gap. */
  function DynamicGap(k: Profile, s: RewriteState, ticksPerMs: u32, now: Instant): u32 {
    if s.clearedAt.Some?
    then Max(SatMul32(ElapsedMs(s.clearedAt.value, now), ticksPerMs), k.tsGuardGap)
    else k.tsGuardGap
  }

  function SilenceTs(): u32 {
    TS_GUARD_GAP_AUDIO * SILENCE_FLUSH_COUNT
  }

  function Switch(k: Profile, s: RewriteState, user: UserId, now: Instant): RewriteState {
    var gap := if k.requireKeyframe then DynamicGap(k, s, 90, now)
               else SatSub(DynamicGap(k, s, 48, now), SilenceTs());
    s.(speaker := Some(user),
       virtualBaseTs := Wrap32(s.lastVirtualTs + gap),
       virtualBaseSeq := Wrap16(s.lastVirtualSeq + 1),
       clearedAt := None, awaitingFirstPacket := true, pendingKeyframe := k.requireKeyframe,
       switchedAt := Some(now))
  }

  /** Clearing an audio rewriter that has already sent something flushes three silence frames. */
  predicate Flushes(k: Profile, s: RewriteState) {
    !k.requireKeyframe && !(s.lastVirtualSeq == 0 && s.lastVirtualTs == 0)
  }

  function Silence(k: Profile, s: RewriteState, n: nat): (frames: seq<Packet>)
    ensures |frames| == n
  {
    if n == 0 then []
    else Silence(k, s, n - 1) + [SilenceFrame(k.virtualSsrc, Wrap16(s.lastVirtualSeq + n),
                                              Wrap32(s.lastVirtualTs + TS_GUARD_GAP_AUDIO * n))]
  }

  function ClearFrames(k: Profile, s: RewriteState): Option<seq<Packet>> {
    if Flushes(k, s) then Some(Silence(k, s, SILENCE_FLUSH_COUNT)) else None
  }

  function Clear(k: Profile, s: RewriteState, now: Instant): RewriteState {
    var c := s.(speaker := None, awaitingFirstPacket := false, pendingKeyframe := false,
                clearedAt := Some(now), switchedAt := None);
    if Flushes(k, s) then
      c.(lastVirtualSeq := Wrap16(s.lastVirtualSeq + SILENCE_FLUSH_COUNT),
         lastVirtualTs := Wrap32(s.lastVirtualTs + SilenceTs()))
    else c
  }

  /** What happens to a packet, before anything is changed. */
  function Verdict(s: RewriteState, p: Packet, sender: UserId, isKeyframe: bool): RewriteResult {
    if |p| < 12 || s.speaker != Some(sender) then Skip
    else if s.pendingKeyframe && !isKeyframe then PendingKeyframe
    else Ok
  }

  /** Ticks for the time a video speaker took to produce its first keyframe, once above 50 ms. */
  function PendingTicks(k: Profile, s: RewriteState, now: Instant): u32 {
    if k.requireKeyframe && s.switchedAt.Some? && ElapsedMs(s.switchedAt.value, now) > 50
    then SatMul32(ElapsedMs(s.switchedAt.value, now), 90) else 0
  }

  /** The state in which an accepted packet is mapped: the first packet of a burst fixes the origin. */
  function Rebase(k: Profile, s: RewriteState, p: Packet, now: Instant): RewriteState
    requires |p| >= 12
  {
    if s.awaitingFirstPacket then
      s.(pendingKeyframe := false, awaitingFirstPacket := false,
         originBaseSeq := SeqOf(p), originBaseTs := TsOf(p),
         virtualBaseTs := Wrap32(s.virtualBaseTs + PendingTicks(k, s, now)),
         switchedAt := if k.requireKeyframe then None else s.switchedAt)
    else s.(pendingKeyframe := false)
  }

  function VirtualSeq(s: RewriteState, sequence: u16): u16 {
    Wrap16(Wrap16(sequence - s.originBaseSeq) + s.virtualBaseSeq)
  }

  function VirtualTs(s: RewriteState, ts: u32): u32 {
    Wrap32(Wrap32(ts - s.originBaseTs) + s.virtualBaseTs)
  }

  function AfterPacket(k: Profile, s: RewriteState, p: Packet, sender: UserId, isKeyframe: bool, now: Instant)
    : RewriteState
  {
    if Verdict(s, p, sender, isKeyframe).Ok? then
      var b := Rebase(k, s, p, now);
      b.(lastVirtualSeq := VirtualSeq(b, SeqOf(p)), lastVirtualTs := VirtualTs(b, TsOf(p)))
    else s
  }

  function Rewritten(k: Profile, s: RewriteState, p: Packet, sender: UserId, isKeyframe: bool, now: Instant): Packet {
    if Verdict(s, p, sender, isKeyframe).Ok? then
      var b := Rebase(k, s, p, now);
      Patch(p, VirtualSeq(b, SeqOf(p)), VirtualTs(b, TsOf(p)), k.virtualSsrc,
            s.awaitingFirstPacket && !k.requireKeyframe)
    else p
  }

  /** A sender report's RTP timestamp, moved to the virtual timeline. */
  function TranslateRtpTs(s: RewriteState, ts: u32): Option<u32> {
    if s.speaker.None? || s.awaitingFirstPacket then None else Some(VirtualTs(s, ts))
  }

  /** The source sequence number behind a virtual one. */
  function ReverseSeq(s: RewriteState, virtualSeq: u16): u16 {
    Wrap16(Wrap16(virtualSeq - s.virtualBaseSeq) + s.originBaseSeq)
  }

  // ---------------------------------------------------------------- the rewriter object

  class Rewriter {
    const profile: Profile
    var state: RewriteState

    constructor (profile: Profile)
      ensures this.profile == profile && state == INITIAL
    {
      this.profile := profile;
      state := INITIAL;
    }

    method SwitchSpeaker(user: UserId, now: Instant)
      modifies this
      ensures state == Switch(profile, old(state), user, now)
    {
      if !profile.requireKeyframe {
        var dynamicGap := profile.tsGuardGap;
        if state.clearedAt.Some? {
          var elapsed := ElapsedMs(state.clearedAt.value, now);
          dynamicGap := Max(SatMul32(elapsed, 48), profile.tsGuardGap);
        }
        var extraGap := SatSub(dynamicGap, SilenceTs());
        state := state.(virtualBaseTs := Wrap32(state.lastVirtualTs + extraGap));
        state := state.(virtualBaseSeq := Wrap16(state.lastVirtualSeq + 1));
      } else {
        var dynamicGap := profile.tsGuardGap;
        if state.clearedAt.Some? {
          var elapsed := ElapsedMs(state.clearedAt.value, now);
          dynamicGap := Max(SatMul32(elapsed, 90), profile.tsGuardGap);
        }
        state := state.(virtualBaseTs := Wrap32(state.lastVirtualTs + dynamicGap));
        state := state.(virtualBaseSeq := Wrap16(state.lastVirtualSeq + 1));
      }
      state := state.(clearedAt := None, speaker := Some(user), awaitingFirstPacket := true);
      state := state.(pendingKeyframe := profile.requireKeyframe, switchedAt := Some(now));
    }

    method ClearSpeaker(now: Instant) returns (silence: Option<seq<Packet>>)
      modifies this
      ensures state == Clear(profile, old(state), now)
      ensures silence == ClearFrames(profile, old(state))
    {
      state := state.(speaker := None, awaitingFirstPacket := false, pendingKeyframe := false);
      state := state.(clearedAt := Some(now), switchedAt := None);
      if profile.requireKeyframe {
        return None;
      }
      if state.lastVirtualSeq == 0 && state.lastVirtualTs == 0 {
        return None;
      }
      var frames: seq<Packet> := [];
      for i := 0 to SILENCE_FLUSH_COUNT
        invariant frames == Silence(profile, old(state), i)
        invariant state == old(state).(speaker := None, awaitingFirstPacket := false, pendingKeyframe := false,
                                       clearedAt := Some(now), switchedAt := None)
      {
        var sequence := Wrap16(state.lastVirtualSeq + 1 + i);
        var ts := Wrap32(state.lastVirtualTs + TS_GUARD_GAP_AUDIO * (1 + i));
        frames := frames + [SilenceFrame(profile.virtualSsrc, sequence, ts)];
      }
      state := state.(lastVirtualSeq := Wrap16(state.lastVirtualSeq + SILENCE_FLUSH_COUNT));
      state := state.(lastVirtualTs := Wrap32(state.lastVirtualTs + TS_GUARD_GAP_AUDIO * SILENCE_FLUSH_COUNT));
      return Some(frames);
    }

    /** The first packet of a burst fixes the origin and charges the keyframe wait. */
    method FixOrigin(origSeq: u16, origTs: u32, now: Instant)
      modifies this
      ensures state == old(state).(originBaseSeq := origSeq, originBaseTs := origTs, awaitingFirstPacket := false,
                                   virtualBaseTs :=
                                     Wrap32(old(state).virtualBaseTs + PendingTicks(profile, old(state), now)),
                                   switchedAt := if profile.requireKeyframe then None else old(state).switchedAt)
    {
      state := state.(originBaseSeq := origSeq, originBaseTs := origTs);
      if profile.requireKeyframe {
        if state.switchedAt.Some? {
          var pendingMs := ElapsedMs(state.switchedAt.value, now);
          if pendingMs > 50 {
            state := state.(virtualBaseTs := Wrap32(state.virtualBaseTs + SatMul32(pendingMs, 90)));
          }
        }
        state := state.(switchedAt := None);
      }
      state := state.(awaitingFirstPacket := false);
    }

    /** Rewrites the packet in place. */
    method Rewrite(plaintext: array<u8>, sender: UserId, isKeyframe: bool, now: Instant)
      returns (result: RewriteResult)
      modifies this, plaintext
      ensures result == Verdict(old(state), old(plaintext[..]), sender, isKeyframe)
      ensures state == AfterPacket(profile, old(state), old(plaintext[..]), sender, isKeyframe, now)
      ensures plaintext[..] == Rewritten(profile, old(state), old(plaintext[..]), sender, isKeyframe, now)
    {
      if plaintext.Length < 12 {
        return Skip;
      }
      if state.speaker != Some(sender) {
        return Skip;
      }
      if state.pendingKeyframe {
        if isKeyframe {
          state := state.(pendingKeyframe := false);
        } else {
          return PendingKeyframe;
        }
      }
      var origSeq, origTs := SeqOf(plaintext[..]), TsOf(plaintext[..]);
      var isFirst := state.awaitingFirstPacket;
      if isFirst {
        FixOrigin(origSeq, origTs, now);
      }
      var virtualSeq := Wrap16(Wrap16(origSeq - state.originBaseSeq) + state.virtualBaseSeq);
      var virtualTs := Wrap32(Wrap32(origTs - state.originBaseTs) + state.virtualBaseTs);
      state := state.(lastVirtualSeq := virtualSeq, lastVirtualTs := virtualTs);
      WriteHeader(plaintext, virtualSeq, virtualTs, profile.virtualSsrc, isFirst && !profile.requireKeyframe);
      result := Ok;
    }
  }

  /** The header writes of a rewrite: SSRC, sequence number, timestamp, marker. */
  method WriteHeader(a: array<u8>, sequence: u16, ts: u32, ssrc: u32, marker: bool)
    requires a.Length >= 12
    modifies a
    ensures a[..] == Patch(old(a[..]), sequence, ts, ssrc, marker)
  {
    ghost var p := a[..];
    WriteField(a, 8, Be32(ssrc));
    WriteField(a, 2, Be16(sequence));
    WriteField(a, 4, Be32(ts));
    if marker && a[1] < 0x80 {
      a[1] := a[1] + 0x80;
    }
    assert a[2..4] == Be16(sequence);
    assert a[4..8] == Be32(ts);
    assert a[8..12] == Be32(ssrc);
    assert a[12..] == p[12..];
    FiveParts(a[..]);
  }

  lemma FiveParts(r: Packet)
    requires |r| >= 12
    ensures r == [r[0], r[1]] + r[2..4] + r[4..8] + r[8..12] + r[12..]
  {
  }
}
