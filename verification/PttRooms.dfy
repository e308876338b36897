/** Whole runs of a push-to-talk room: handler calls, incoming media, and participants coming and going. Ties together
    the floor, both rewriters, the packet caches and the room's membership. */
module PttRooms {
  import opened Words
  import opened Floor
  import FloorRuns
  import opened FloorHandlers
  import R = PttRewriter
  import S = PttStream
  import Nack

  /** One thing that happens to the room. ROOM_LEAVE and the disconnect cleanup are the call `LeaveCall`; the reaper
      removes a participant without a word to the floor. */
  datatype Input =
    | Called(call: Call, at: Instant)
    | Audio(packet: R.Packet, index: int, sender: UserId, now: Instant)
    | Video(packet: R.Packet, index: int, sender: UserId, keyframe: bool, now: Instant)
    | Joined(user: UserId)
    | Reaped(user: UserId)

  function Members(ins: seq<Input>): set<UserId> {
    if ins == [] then {}
    else
      var before := Members(ins[..|ins| - 1]);
      match ins[|ins| - 1]
      case Joined(u) => before + {u}
      case Reaped(u) => before - {u}
      case Called(LeaveCall(u, _), _) => before - {u}
      case _ => before
  }

  function FloorAfter(cfg: FloorConfig, ins: seq<Input>): FloorInner {
    if ins == [] then INITIAL
    else
      var before, x := FloorAfter(cfg, ins[..|ins| - 1]), ins[|ins| - 1];
      if x.Called? then FloorOutcome(cfg, before, x.call).inner else before
  }

  /** The gate in front of the rewriters: the sender is known, and holds the floor. */
  predicate Passes(cfg: FloorConfig, ins: seq<Input>, sender: UserId) {
    sender in Members(ins) && Speaker(FloorAfter(cfg, ins)) == Some(sender)
  }

  /** What a call makes of the rewriters. */
  function CallEvents(cfg: FloorConfig, ins: seq<Input>, c: Call, at: Instant): seq<S.Event> {
    AsEvents(MovesOf(c, FloorOutcome(cfg, FloorAfter(cfg, ins), c).actions), at)
  }

  /** The calls on the audio rewriter in the course of the run. */
  function AudioEvents(cfg: FloorConfig, ins: seq<Input>): seq<S.Event> {
    if ins == [] then []
    else
      var init := ins[..|ins| - 1];
      AudioEvents(cfg, init) +
      match ins[|ins| - 1] {
        case Called(c, at) => CallEvents(cfg, init, c, at)
        case Audio(p, n, u, now) => if Passes(cfg, init, u) then [S.Media(p, n, u, false, now)] else []
        case _ => []
      }
  }

  /** The calls on the video rewriter in the course of the run. */
  function VideoEvents(cfg: FloorConfig, ins: seq<Input>): seq<S.Event> {
    if ins == [] then []
    else
      var init := ins[..|ins| - 1];
      VideoEvents(cfg, init) +
      match ins[|ins| - 1] {
        case Called(c, at) => CallEvents(cfg, init, c, at)
        case Video(p, n, u, key, now) => if Passes(cfg, init, u) then [S.Media(p, n, u, key, now)] else []
        case _ => []
      }
  }

  // ---------------------------------------------------------------- whose packets a NACK asks for

  /** `current_speaker`, or else `last_speaker`. */
  function Publisher(f: FloorInner): Option<UserId> {
    if f.state.Taken? then Some(f.state.speaker) else f.prevSpeaker
  }

  function LastSwitched(es: seq<S.Event>): Option<UserId> {
    if es == [] then None
    else if es[|es| - 1].SwitchTo? then Some(es[|es| - 1].user)
    else LastSwitched(es[..|es| - 1])
  }

  /** A call grants last, or does not grant at all and leaves the publisher as it was. */
  lemma PublisherStep(cfg: FloorConfig, f: FloorInner, c: Call)
    ensures var o := FloorOutcome(cfg, f, c);
            && Fitting(c, o.actions)
            && Publisher(o.inner) == if Announced(o.actions).Some? then Announced(o.actions) else Publisher(f)
  {
    FloorFits(cfg, f, c);
  }

  /** The last user a list of moves switches to. */
  function LastMoved(moves: seq<Move>): Option<UserId> {
    if moves == [] then None
    else if moves[|moves| - 1].SwitchedTo? then Some(moves[|moves| - 1].user)
    else LastMoved(moves[..|moves| - 1])
  }

  lemma {:induction false} LastSwitchedAfter(es: seq<S.Event>, moves: seq<Move>, at: Instant)
    ensures LastSwitched(es + AsEvents(moves, at)) ==
            if LastMoved(moves).Some? then LastMoved(moves) else LastSwitched(es)
    decreases moves
  {
    var all := es + AsEvents(moves, at);
    if moves == [] {
      assert all == es;
    } else {
      var init := moves[..|moves| - 1];
      LastSwitchedAfter(es, init, at);
      assert all[..|all| - 1] == es + AsEvents(init, at);
    }
  }

  lemma LastMovedOfOne(c: Call, a: FloorAction)
    requires Fitting(c, [a])
    ensures LastMoved(MovesOf(c, [a])) == Announced([a])
  {
    OneAction(a, true);
    OneAction(a, false);
    assert [Cleared(true)][..0] == [] && [Cleared(false)][..0] == [];
    if c.LeaveCall? {
      assert (Grants([a]) + [Cleared(true)])[..|Grants([a])|] == Grants([a]);
    }
  }

  lemma LastMovedOfTwo(c: Call, a: FloorAction, b: FloorAction)
    requires Fitting(c, [a, b])
    ensures LastMoved(MovesOf(c, [a, b])) == Announced([a, b])
  {
    ThenGrant(a, b);
    if c.LeaveCall? {
      assert (Grants([a, b]) + [Cleared(true)])[..|Grants([a, b])|] == Grants([a, b]);
    }
  }

  lemma LastMovedAnnounced(c: Call, actions: seq<FloorAction>)
    requires Fitting(c, actions)
    ensures LastMoved(MovesOf(c, actions)) == Announced(actions)
  {
    if |actions| == 1 {
      assert actions == [actions[0]];
      LastMovedOfOne(c, actions[0]);
    } else if |actions| == 2 {
      assert actions == [actions[0], actions[1]];
      LastMovedOfTwo(c, actions[0], actions[1]);
    }
  }

  lemma LastSwitchedOne(es: seq<S.Event>, e: S.Event)
    requires e.Media?
    ensures LastSwitched(es + [e]) == LastSwitched(es)
  {
    assert (es + [e])[..|es|] == es;
  }

  /** Over every run, the publisher the floor names is whoever the rewriters were last switched to. */
  lemma {:induction false} PublisherIsLastSwitched(cfg: FloorConfig, ins: seq<Input>)
    ensures LastSwitched(VideoEvents(cfg, ins)) == Publisher(FloorAfter(cfg, ins))
  {
    if ins != [] {
      var init, x := ins[..|ins| - 1], ins[|ins| - 1];
      var es := VideoEvents(cfg, init);
      PublisherIsLastSwitched(cfg, init);
      if x.Called? {
        var f := FloorAfter(cfg, init);
        PublisherStep(cfg, f, x.call);
        LastMovedAnnounced(x.call, FloorOutcome(cfg, f, x.call).actions);
        LastSwitchedAfter(es, MovesOf(x.call, FloorOutcome(cfg, f, x.call).actions), x.at);
      } else if x.Video? && Passes(cfg, init, x.sender) {
        LastSwitchedOne(es, S.Media(x.packet, x.index, x.sender, x.keyframe, x.now));
      } else {
        assert es + [] == es;
      }
    }
  }

  /** A rewriter that has a speaker was last switched to it. */
  lemma {:induction false} SpeakerIsLastSwitched(k: R.Profile, es: seq<S.Event>)
    ensures S.Play(k, es).s.speaker.Some? ==> S.Play(k, es).s.speaker == LastSwitched(es)
  {
    if es != [] {
      SpeakerIsLastSwitched(k, es[..|es| - 1]);
    }
  }

  /** As long as the burst runs, nobody else was switched to. */
  lemma {:induction false} SameBurstSameSpeaker(k: R.Profile, es: seq<S.Event>, m: nat)
    requires m <= |es|
    ensures S.Play(k, es[..m]).burst <= S.Play(k, es).burst
    ensures S.Play(k, es[..m]).burst == S.Play(k, es).burst ==> LastSwitched(es[..m]) == LastSwitched(es)
  {
    if m == |es| {
      assert es[..m] == es;
    } else {
      var init := es[..|es| - 1];
      assert init[..m] == es[..m];
      SameBurstSameSpeaker(k, init, m);
    }
  }

  lemma {:induction false} VideoEventsGrow(cfg: FloorConfig, ins: seq<Input>, m: nat)
    requires m <= |ins|
    ensures VideoEvents(cfg, ins[..m]) <= VideoEvents(cfg, ins)
  {
    if m == |ins| {
      assert ins[..m] == ins;
    } else {
      assert ins[..|ins| - 1][..m] == ins[..m];
      VideoEventsGrow(cfg, ins[..|ins| - 1], m);
    }
  }

  function VideoEvent(x: Input): S.Event
    requires x.Video?
  {
    S.Media(x.packet, x.index, x.sender, x.keyframe, x.now)
  }

  /** Input `m` is a video packet that the rewriter accepted and sent on. */
  ghost predicate Relayed(cfg: FloorConfig, k: R.Profile, ins: seq<Input>, m: nat) {
    && m < |ins| && ins[m].Video? && Passes(cfg, ins[..m], ins[m].sender)
    && S.Accepts(S.Play(k, VideoEvents(cfg, ins[..m])), VideoEvent(ins[m]))
  }

  /** The burst in which input `m` came is still the running one. */
  ghost predicate SameBurst(cfg: FloorConfig, k: R.Profile, ins: seq<Input>, m: nat)
    requires m <= |ins|
  {
    S.Play(k, VideoEvents(cfg, ins[..m])).burst == S.Play(k, VideoEvents(cfg, ins)).burst
  }

  /** Where the relayed packet sits among the calls on the video rewriter. */
  lemma RelayedEvent(cfg: FloorConfig, k: R.Profile, ins: seq<Input>, m: nat)
    requires Relayed(cfg, k, ins, m)
    ensures var es, i := VideoEvents(cfg, ins), |VideoEvents(cfg, ins[..m])|;
            i < |es| && es[..i] == VideoEvents(cfg, ins[..m]) && es[i] == VideoEvent(ins[m])
  {
    assert ins[..m + 1][..m] == ins[..m];
    assert VideoEvents(cfg, ins[..m + 1]) == VideoEvents(cfg, ins[..m]) + [VideoEvent(ins[m])];
    VideoEventsGrow(cfg, ins, m + 1);
  }

  /** Over every run: the publisher the floor names is the sender of every packet relayed in the running burst. */
  lemma PublisherIsSender(cfg: FloorConfig, k: R.Profile, ins: seq<Input>, m: nat)
    requires Relayed(cfg, k, ins, m) && SameBurst(cfg, k, ins, m)
    ensures Publisher(FloorAfter(cfg, ins)) == Some(ins[m].sender)
  {
    var es, i := VideoEvents(cfg, ins), |VideoEvents(cfg, ins[..m])|;
    RelayedEvent(cfg, k, ins, m);
    PublisherIsLastSwitched(cfg, ins);
    SameBurstSameSpeaker(k, es, i);
    SpeakerIsLastSwitched(k, es[..i]);
  }

  // ---------------------------------------------------------------- recovery of a lost packet

  /** The packets in the cache of `u`: every video packet received from `u`, relayed or not, since it last joined. */
  function CacheOf(ins: seq<Input>, u: UserId): (ps: seq<R.Packet>)
    ensures Nack.AllWhole(ps)
  {
    if ins == [] then []
    else
      var init := ins[..|ins| - 1];
      match ins[|ins| - 1]
      case Video(p, _, sender, _, _) =>
        CacheOf(init, u) + if sender == u && u in Members(init) && |p| >= 12 then [p] else []
      case Reaped(v) => if v == u then [] else CacheOf(init, u)
      case Called(LeaveCall(v, _), _) => if v == u then [] else CacheOf(init, u)
      case _ => CacheOf(init, u)
  }

  predicate Departs(x: Input, u: UserId) {
    x == Reaped(u) || (x.Called? && x.call.LeaveCall? && x.call.user == u)
  }

  /** Since input `m` its sender has not left, and has sent no other packet for the slot of that one. */
  ghost predicate Undisturbed(ins: seq<Input>, m: nat)
    requires m < |ins| && ins[m].Video? && |ins[m].packet| >= 12
  {
    forall l :: m < l < |ins| ==>
      && !Departs(ins[l], ins[m].sender)
      && (ins[l].Video? && ins[l].sender == ins[m].sender && |ins[l].packet| >= 12 ==>
            !Nack.SameSlot(ins[l].packet, ins[m].packet))
  }

  lemma {:induction false} CachedThroughRun(ins: seq<Input>, m: nat) returns (i: nat)
    requires m < |ins| && ins[m].Video? && |ins[m].packet| >= 12 && ins[m].sender in Members(ins[..m])
    requires Undisturbed(ins, m)
    ensures ins[m].sender in Members(ins)
    ensures var ps := CacheOf(ins, ins[m].sender); i < |ps| && ps[i] == ins[m].packet && Nack.Kept(ps, i)
  {
    var init := ins[..|ins| - 1];
    if m == |ins| - 1 {
      i := |CacheOf(init, ins[m].sender)|;
    } else {
      assert init[..m] == ins[..m] && init[m] == ins[m];
      assert !Departs(ins[|ins| - 1], ins[m].sender);
      i := CachedThroughRun(init, m);
    }
  }

  /** Input `m` is video `p` of the member `u`, who has not left since. */
  ghost predicate CachedAt(ins: seq<Input>, u: UserId, p: R.Packet, m: nat) {
    && m < |ins| && ins[m].Video? && ins[m].packet == p && ins[m].sender == u && u in Members(ins[..m])
    && forall l :: m < l < |ins| ==> !Departs(ins[l], u)
  }

  lemma CachedStays(ins: seq<Input>, u: UserId, p: R.Packet, m: nat)
    requires ins != [] && CachedAt(ins[..|ins| - 1], u, p, m) && !Departs(ins[|ins| - 1], u)
    ensures CachedAt(ins, u, p, m)
  {
    var init := ins[..|ins| - 1];
    assert init[..m] == ins[..m] && init[m] == ins[m];
    assert forall l :: m < l < |init| ==> init[l] == ins[l];
  }

  /** The cache has nothing but video its owner sent as a member and since last leaving; without membership it is
      empty. */
  lemma {:induction false} OnlyOwnCached(ins: seq<Input>, u: UserId, i: nat) returns (m: nat)
    requires i < |CacheOf(ins, u)|
    ensures CachedAt(ins, u, CacheOf(ins, u)[i], m) && u in Members(ins)
  {
    var init, x := ins[..|ins| - 1], ins[|ins| - 1];
    if x.Video? && i == |CacheOf(init, u)| {
      m := |init|;
    } else {
      m := OnlyOwnCached(init, u, i);
      CachedStays(ins, u, CacheOf(ins, u)[i], m);
    }
  }

  /** The participant whose cache a NACK for the virtual video stream is answered from: the publisher the floor names,
      if still in the room. */
  function NackSource(cfg: FloorConfig, ins: seq<Input>): Option<UserId> {
    var p := Publisher(FloorAfter(cfg, ins));
    if p.Some? && p.value in Members(ins) then p else None
  }

  /** The retransmissions for a NACK on the virtual video stream. */
  function Answer(cfg: FloorConfig, k: R.Profile, ins: seq<Input>, pid: u16, blp: u16, rtxSsrc: u32, next: u16)
    : seq<R.Packet>
  {
    var u := NackSource(cfg, ins);
    if u.None? then []
    else
      var s := S.Play(k, VideoEvents(cfg, ins)).s;
      Nack.Recover(Nack.StoreAll(CacheOf(ins, u.value)), Nack.Reversed(s, Nack.Expand(pid, blp, 16)), rtxSsrc, next)
  }

  /** The packet as the subscribers received it. */
  function SentAs(cfg: FloorConfig, k: R.Profile, ins: seq<Input>, m: nat): R.Packet
    requires Relayed(cfg, k, ins, m)
  {
    var t := S.Play(k, VideoEvents(cfg, ins[..m]));
    S.Advance(k, t, VideoEvent(ins[m])).sent[|t.sent|].packet
  }

  /** Over every run of a push-to-talk room: a packet relayed in the burst still running, whose sender is still in the
      room and has used its cache slot for nothing else since, is retransmitted for any NACK that lists its virtual
      number, out of the cache of the publisher the floor names; and the receiver reads the source's number and
      payload from the retransmission exactly when the source packet is `Readable`. */
  lemma NackRecovery(
    cfg: FloorConfig, k: R.Profile, ins: seq<Input>, m: nat, pid: u16, blp: u16, rtxSsrc: u32, next: u16)
    returns (j: nat)
    requires Relayed(cfg, k, ins, m) && SameBurst(cfg, k, ins, m) && |ins[m].packet| >= 12 && Undisturbed(ins, m)
    requires |SentAs(cfg, k, ins, m)| >= 12 && Nack.AskedFor(pid, blp, R.SeqOf(SentAs(cfg, k, ins, m)))
    ensures var out, p := Answer(cfg, k, ins, pid, blp, rtxSsrc, next), ins[m].packet;
            && NackSource(cfg, ins) == Some(ins[m].sender)
            && j < |out| && out[j] == Nack.BuildRtx(p, rtxSsrc, Wrap16(next + j))
            && (Nack.PayloadStart(p).Some? ==> (Nack.ReadsBack(out[j], p) <==> Nack.Readable(p)))
  {
    var es, i := VideoEvents(cfg, ins), |VideoEvents(cfg, ins[..m])|;
    var ps := CacheOf(ins, ins[m].sender);
    RelayedEvent(cfg, k, ins, m);
    PublisherIsSender(cfg, k, ins, m);
    var c := CachedThroughRun(ins, m);
    Nack.LostIffOverwritten(ps, c);
    Nack.ExpandExactly(pid, blp, R.SeqOf(SentAs(cfg, k, ins, m)));
    j := Nack.BurstRecovery(k, es, i, Nack.StoreAll(ps), Nack.Expand(pid, blp, 16), rtxSsrc, next);
  }

  // ---------------------------------------------------------------- the audio stream of a room

  /** The calls that clear the rewriters without sending the silence on: the timer and MBCP. */
  predicate ThrowsSilenceAway(c: Call) {
    c.TimerCall? || c.MbcpRequest? || c.MbcpRelease?
  }

  /** Some clear among the moves, made from state `s` on, produces silence. */
  ghost predicate FlushingMoves(k: R.Profile, s: R.RewriteState, moves: seq<Move>, at: Instant) {
    exists i :: 0 <= i < |moves| && moves[i].Cleared? && R.Flushes(k, StateAfter(k, s, moves[..i], at))
  }

  /** No clear that produces silence comes from the timer or an MBCP call. */
  ghost predicate NoSilenceLost(cfg: FloorConfig, k: R.Profile, ins: seq<Input>) {
    ins != [] ==>
      var init, x := ins[..|ins| - 1], ins[|ins| - 1];
      && NoSilenceLost(cfg, k, init)
      && (x.Called? && ThrowsSilenceAway(x.call) ==>
            !FlushingMoves(k, S.Play(k, AudioEvents(cfg, init)).s,
                           MovesOf(x.call, FloorOutcome(cfg, FloorAfter(cfg, init), x.call).actions), x.at))
  }

  lemma FlushAppend(k: R.Profile, es: seq<S.Event>, e: S.Event)
    ensures S.EveryFlushBroadcast(k, es + [e]) <==>
            S.EveryFlushBroadcast(k, es) && (e.ClearFloor? && R.Flushes(k, S.Play(k, es).s) ==> e.broadcast)
  {
    assert (es + [e])[..|es|] == es;
  }

  /** Some clear among the moves throws silence away. */
  ghost predicate LosesSilence(k: R.Profile, s: R.RewriteState, moves: seq<Move>, at: Instant) {
    exists i :: 0 <= i < |moves| && moves[i] == Cleared(false) && R.Flushes(k, StateAfter(k, s, moves[..i], at))
  }

  lemma LosesAppend(k: R.Profile, s: R.RewriteState, moves: seq<Move>, at: Instant)
    requires moves != []
    ensures var init, m := moves[..|moves| - 1], moves[|moves| - 1];
            LosesSilence(k, s, moves, at) <==>
            LosesSilence(k, s, init, at) || (m == Cleared(false) && R.Flushes(k, StateAfter(k, s, init, at)))
  {
    var init := moves[..|moves| - 1];
    assert forall i :: 0 <= i < |init| ==> init[i] == moves[i] && init[..i] == moves[..i];
    if LosesSilence(k, s, moves, at) {
      var i :| 0 <= i < |moves| && moves[i] == Cleared(false) && R.Flushes(k, StateAfter(k, s, moves[..i], at));
      if i < |init| {
        assert init[i] == Cleared(false) && R.Flushes(k, StateAfter(k, s, init[..i], at));
      }
    }
    if LosesSilence(k, s, init, at) {
      var i :| 0 <= i < |init| && init[i] == Cleared(false) && R.Flushes(k, StateAfter(k, s, init[..i], at));
      assert moves[i] == Cleared(false) && R.Flushes(k, StateAfter(k, s, moves[..i], at));
    }
  }

  lemma {:induction false} FlushAppendMoves(k: R.Profile, es: seq<S.Event>, moves: seq<Move>, at: Instant)
    ensures S.EveryFlushBroadcast(k, es + AsEvents(moves, at)) <==>
            S.EveryFlushBroadcast(k, es) && !LosesSilence(k, S.Play(k, es).s, moves, at)
    decreases moves
  {
    if moves == [] {
      assert es + AsEvents(moves, at) == es;
    } else {
      var init, m := moves[..|moves| - 1], moves[|moves| - 1];
      FlushAppendMoves(k, es, init, at);
      AppendAssociative(es, AsEvents(init, at), [AsEvent(m, at)]);
      FlushAppend(k, es + AsEvents(init, at), AsEvent(m, at));
      MovesPlay(k, es, init, at);
      LosesAppend(k, S.Play(k, es).s, moves, at);
    }
  }

  /** A call loses silence exactly when it clears and its kind throws silence away. */
  lemma LosesIffThrows(k: R.Profile, s: R.RewriteState, c: Call, actions: seq<FloorAction>, at: Instant)
    ensures var moves := MovesOf(c, actions);
            LosesSilence(k, s, moves, at) <==> ThrowsSilenceAway(c) && FlushingMoves(k, s, moves, at)
  {
    var moves := MovesOf(c, actions);
    forall i | 0 <= i < |moves| && moves[i].Cleared?
      ensures moves[i].broadcast <==> !ThrowsSilenceAway(c)
    {
      WhoBroadcasts(c, actions, i);
      ClearedAs(actions, true);
    }
  }

  lemma {:induction false} RoomFlushes(cfg: FloorConfig, k: R.Profile, ins: seq<Input>)
    ensures S.EveryFlushBroadcast(k, AudioEvents(cfg, ins)) <==> NoSilenceLost(cfg, k, ins)
  {
    if ins != [] {
      var init, x := ins[..|ins| - 1], ins[|ins| - 1];
      var es := AudioEvents(cfg, init);
      RoomFlushes(cfg, k, init);
      if x.Called? {
        var actions := FloorOutcome(cfg, FloorAfter(cfg, init), x.call).actions;
        FlushAppendMoves(k, es, MovesOf(x.call, actions), x.at);
        LosesIffThrows(k, S.Play(k, es).s, x.call, actions, x.at);
      } else if x.Audio? && Passes(cfg, init, x.sender) {
        FlushAppend(k, es, S.Media(x.packet, x.index, x.sender, false, x.now));
      } else {
        assert es + [] == es;
      }
    }
  }

  ghost predicate WellFormed(x: Input) {
    x.Audio? && |x.packet| >= 12 ==> R.SeqOf(x.packet) == Wrap16(x.index)
  }

  lemma {:induction false} MovesWellFormed(moves: seq<Move>, at: Instant)
    ensures forall i :: 0 <= i < |AsEvents(moves, at)| ==> S.WellFormed(AsEvents(moves, at)[i])
  {
    if moves != [] {
      MovesWellFormed(moves[..|moves| - 1], at);
    }
  }

  lemma {:induction false} AudioWellFormed(cfg: FloorConfig, ins: seq<Input>)
    requires forall i :: 0 <= i < |ins| ==> WellFormed(ins[i])
    ensures forall i :: 0 <= i < |AudioEvents(cfg, ins)| ==> S.WellFormed(AudioEvents(cfg, ins)[i])
  {
    if ins != [] {
      var init, x := ins[..|ins| - 1], ins[|ins| - 1];
      AudioWellFormed(cfg, init);
      if x.Called? {
        MovesWellFormed(MovesOf(x.call, FloorOutcome(cfg, FloorAfter(cfg, init), x.call).actions), x.at);
      }
      assert WellFormed(x);
    }
  }

  /** Over every run of a push-to-talk room: the audio that subscribers receive is continuous, and owes nothing to the
      next packet, exactly when bursts arrive in source order and no clear that produces silence comes from the timer or
      an MBCP call. */
  lemma RoomAudioContinuity(cfg: FloorConfig, ssrc: u32, ins: seq<Input>)
    requires forall i :: 0 <= i < |ins| ==> WellFormed(ins[i])
    ensures var k := R.AudioProfile(ssrc);
            var es := AudioEvents(cfg, ins);
            S.Continuous(S.Play(k, es).sent) && S.Play(k, es).dropped == 0 <==>
            S.InOrder(k, es) && NoSilenceLost(cfg, k, ins)
  {
    var k := R.AudioProfile(ssrc);
    AudioWellFormed(cfg, ins);
    S.VirtualStreamContinuity(k, AudioEvents(cfg, ins));
    RoomFlushes(cfg, k, ins);
  }

  lemma AudioAppend(cfg: FloorConfig, ins: seq<Input>, x: Input)
    ensures FloorAfter(cfg, ins + [x]) ==
            if x.Called? then FloorOutcome(cfg, FloorAfter(cfg, ins), x.call).inner else FloorAfter(cfg, ins)
    ensures AudioEvents(cfg, ins + [x]) ==
            AudioEvents(cfg, ins) +
            if x.Called? then CallEvents(cfg, ins, x.call, x.at)
            else if x.Audio? && Passes(cfg, ins, x.sender) then [S.Media(x.packet, x.index, x.sender, false, x.now)]
            else []
    ensures Members(ins + [x]) ==
            if x.Joined? then Members(ins) + {x.user}
            else if x.Reaped? || (x.Called? && x.call.LeaveCall?) then
              Members(ins) - {if x.Reaped? then x.user else x.call.user}
            else Members(ins)
  {
    assert (ins + [x])[..|ins|] == ins;
  }

  /** "A" asks and sends a packet. */
  function ThenSpeaks(ins: seq<Input>, at: Instant): seq<Input> {
    ins + [Called(WsRequest("A", 0, 0), at)] + [AudioSample(10, "A")]
  }

  /** The timer cuts the speaker off; "B" asks and sends a packet. */
  function ThenTimedOut(ins: seq<Input>, late: nat, at: Instant): seq<Input> {
    ins + [Called(TimerCall(late, late), at)] + [Called(WsRequest("B", 0, late), at)] + [AudioSample(50, "B")]
  }

  /** The shortest such run: both join. */
  function TwoThere(): seq<Input> {
    [] + [Joined("A")] + [Joined("B")]
  }

  function AudioSample(n: u16, sender: UserId): Input {
    Audio(R.SilenceFrame(7, n, 0), n, sender, 0)
  }

  lemma TwoThereState(cfg: FloorConfig)
    ensures Silent(cfg, TwoThere())
  {
    AudioAppend(cfg, [], Joined("A"));
    AudioAppend(cfg, [] + [Joined("A")], Joined("B"));
  }

  lemma GrantEvents(cfg: FloorConfig, ins: seq<Input>, u: UserId, now: nat, at: Instant)
    requires FloorAfter(cfg, ins).state.Idle?
    ensures CallEvents(cfg, ins, WsRequest(u, 0, now), at) == [S.SwitchTo(u, at)]
    ensures FloorAfter(cfg, ins + [Called(WsRequest(u, 0, now), at)]) ==
            FloorInner(Taken(u, 0, now, now), FloorAfter(cfg, ins).queue, None)
    ensures AudioEvents(cfg, ins + [Called(WsRequest(u, 0, now), at)]) == AudioEvents(cfg, ins) + [S.SwitchTo(u, at)]
    ensures Members(ins + [Called(WsRequest(u, 0, now), at)]) == Members(ins)
  {
    var g := Granted(u, 0, DEFAULT_DURATION_S);
    AudioAppend(cfg, ins, Called(WsRequest(u, 0, now), at));
    assert FloorOutcome(cfg, FloorAfter(cfg, ins), WsRequest(u, 0, now)).actions == [g];
    OneAction(g, true);
    SingleMove(SwitchedTo(u), at);
  }

  lemma SingleMove(m: Move, at: Instant)
    ensures AsEvents([m], at) == [AsEvent(m, at)]
  {
    assert [m][..0] == [];
  }

  lemma TimeoutEvents(cfg: FloorConfig, ins: seq<Input>, now: nat, at: Instant)
    requires FloorAfter(cfg, ins) == FloorInner(Taken("A", 0, 0, 0), [], None) && now > cfg.maxBurstMs
    ensures CallEvents(cfg, ins, TimerCall(now, now), at) == [S.ClearFloor(at, false)]
    ensures FloorAfter(cfg, ins + [Called(TimerCall(now, now), at)]) == FloorInner(Idle, [], Some("A"))
    ensures AudioEvents(cfg, ins + [Called(TimerCall(now, now), at)]) ==
            AudioEvents(cfg, ins) + [S.ClearFloor(at, false)]
    ensures Members(ins + [Called(TimerCall(now, now), at)]) == Members(ins)
  {
    var a := Revoked("A", "max burst exceeded");
    AudioAppend(cfg, ins, Called(TimerCall(now, now), at));
    assert FloorOutcome(cfg, FloorAfter(cfg, ins), TimerCall(now, now)).actions == [a];
    OneAction(a, false);
    SingleMove(Cleared(false), at);
  }

  lemma SampleEvents(cfg: FloorConfig, ins: seq<Input>, n: u16, u: UserId)
    requires Passes(cfg, ins, u)
    ensures FloorAfter(cfg, ins + [AudioSample(n, u)]) == FloorAfter(cfg, ins)
    ensures AudioEvents(cfg, ins + [AudioSample(n, u)]) == AudioEvents(cfg, ins) + [S.Sample(n, u)]
    ensures Members(ins + [AudioSample(n, u)]) == Members(ins)
  {
    AudioAppend(cfg, ins, AudioSample(n, u));
  }

  /** Nobody has spoken yet, and both are in the room. */
  ghost predicate Silent(cfg: FloorConfig, ins: seq<Input>) {
    FloorAfter(cfg, ins) == INITIAL && AudioEvents(cfg, ins) == [] && "A" in Members(ins) && "B" in Members(ins)
  }

  lemma FirstBurst(cfg: FloorConfig, before: seq<Input>, at: Instant)
    requires Silent(cfg, before)
    ensures var ins := ThenSpeaks(before, at);
            && FloorAfter(cfg, ins) == FloorInner(Taken("A", 0, 0, 0), [], None) && "B" in Members(ins)
            && AudioEvents(cfg, ins) == [S.SwitchTo("A", at)] + [S.Sample(10, "A")]
  {
    GrantEvents(cfg, before, "A", 0, at);
    assert [] + [S.SwitchTo("A", at)] == [S.SwitchTo("A", at)];
    SampleEvents(cfg, before + [Called(WsRequest("A", 0, 0), at)], 10, "A");
  }

  lemma SecondBurst(cfg: FloorConfig, ins: seq<Input>, es: seq<S.Event>, late: nat, at: Instant)
    requires FloorAfter(cfg, ins) == FloorInner(Taken("A", 0, 0, 0), [], None) && "B" in Members(ins)
    requires late > cfg.maxBurstMs && AudioEvents(cfg, ins) == es
    ensures AudioEvents(cfg, ThenTimedOut(ins, late, at)) == S.ThenQuietly(es, at)
  {
    TimeoutEvents(cfg, ins, late, at);
    GrantEvents(cfg, ins + [Called(TimerCall(late, late), at)], "B", late, at);
    SampleEvents(cfg, ins + [Called(TimerCall(late, late), at)] + [Called(WsRequest("B", 0, late), at)], 50, "B");
  }

  lemma SkipsThreeAfter(cfg: FloorConfig, ssrc: u32, ins: seq<Input>, late: nat, at: Instant)
    requires FloorAfter(cfg, ins) == FloorInner(Taken("A", 0, 0, 0), [], None) && "B" in Members(ins)
    requires late > cfg.maxBurstMs && AudioEvents(cfg, ins) == [S.SwitchTo("A", at)] + [S.Sample(10, "A")]
    ensures var t := S.Play(R.AudioProfile(ssrc), AudioEvents(cfg, ThenTimedOut(ins, late, at)));
            |t.sent| == 2 && t.sent[0].index == 1 && t.sent[1].index == 5 && !S.Continuous(t.sent)
  {
    SecondBurst(cfg, ins, AudioEvents(cfg, ins), late, at);
    S.QuietRunSkipsThree(ssrc, at);
  }

  /** Request, packet, timer, request, packet, after any run in which nobody has spoken: the subscribers receive
      positions 1 and 5, and three numbers are missing between the bursts. */
  lemma TimedOutSkipsThree(cfg: FloorConfig, ssrc: u32, ins: seq<Input>, at: Instant)
    requires Silent(cfg, ins)
    ensures var late := cfg.maxBurstMs + 1;
            var t := S.Play(R.AudioProfile(ssrc), AudioEvents(cfg, ThenTimedOut(ThenSpeaks(ins, at), late, at)));
            |t.sent| == 2 && t.sent[0].index == 1 && t.sent[1].index == 5 && !S.Continuous(t.sent)
  {
    FirstBurst(cfg, ins, at);
    SkipsThreeAfter(cfg, ssrc, ThenSpeaks(ins, at), cfg.maxBurstMs + 1, at);
  }

  // ---------------------------------------------------------------- what is sent on

  /** The calls of the run. */
  function Calls(ins: seq<Input>): seq<Call> {
    if ins == [] then []
    else Calls(ins[..|ins| - 1]) + if ins[|ins| - 1].Called? then [ins[|ins| - 1].call] else []
  }

  lemma MediaKeepsSpeaker(k: R.Profile, es: seq<S.Event>, e: S.Event)
    requires e.Media?
    ensures S.Play(k, es + [e]).s.speaker == S.Play(k, es).s.speaker
  {
    S.PlayAppend(k, es, e);
  }

  lemma MovesSetSpeaker(k: R.Profile, es: seq<S.Event>, moves: seq<Move>, at: Instant)
    ensures S.Play(k, es + AsEvents(moves, at)).s.speaker == SpeakerAfter(moves, S.Play(k, es).s.speaker)
  {
    MovesPlay(k, es, moves, at);
    StateSpeaker(k, S.Play(k, es).s, moves, at);
  }

  /** A call moves a rewriter's speaker as the handlers say. */
  lemma CallSetsSpeaker(cfg: FloorConfig, k: R.Profile, ins: seq<Input>, es: seq<S.Event>, c: Call, at: Instant)
    ensures S.Play(k, es + CallEvents(cfg, ins, c, at)).s.speaker ==
            SpeakerAfter(MovesOf(c, FloorOutcome(cfg, FloorAfter(cfg, ins), c).actions), S.Play(k, es).s.speaker)
  {
    MovesSetSpeaker(k, es, MovesOf(c, FloorOutcome(cfg, FloorAfter(cfg, ins), c).actions), at);
  }

  lemma {:induction false} RunFloor(cfg: FloorConfig, ins: seq<Input>)
    ensures HandleAll(cfg, Calls(ins)).floor == FloorAfter(cfg, ins)
  {
    if ins != [] {
      var init, x := ins[..|ins| - 1], ins[|ins| - 1];
      RunFloor(cfg, init);
      if x.Called? {
        HandleNext(cfg, Calls(init), x.call);
      } else {
        assert Calls(init) + [] == Calls(init);
      }
    }
  }

  /** What the last input does to the handlers' view. */
  lemma ViewStep(cfg: FloorConfig, ins: seq<Input>)
    requires ins != []
    ensures var init, x := ins[..|ins| - 1], ins[|ins| - 1];
            var v, w := HandleAll(cfg, Calls(init)), HandleAll(cfg, Calls(ins));
            if x.Called? then
              var moves := MovesOf(x.call, FloorOutcome(cfg, FloorAfter(cfg, init), x.call).actions);
              w.audio == SpeakerAfter(moves, v.audio) && w.video == SpeakerAfter(moves, v.video)
            else w == v
  {
    var init, x := ins[..|ins| - 1], ins[|ins| - 1];
    RunFloor(cfg, init);
    if x.Called? {
      HandleNext(cfg, Calls(init), x.call);
    } else {
      assert Calls(init) + [] == Calls(init);
    }
  }

  lemma {:induction false} RunAudioSpeaker(cfg: FloorConfig, k: R.Profile, ins: seq<Input>)
    ensures S.Play(k, AudioEvents(cfg, ins)).s.speaker == HandleAll(cfg, Calls(ins)).audio
  {
    if ins != [] {
      var init, x := ins[..|ins| - 1], ins[|ins| - 1];
      var es := AudioEvents(cfg, init);
      RunAudioSpeaker(cfg, k, init);
      ViewStep(cfg, ins);
      if x.Called? {
        CallSetsSpeaker(cfg, k, init, es, x.call, x.at);
      } else if x.Audio? && Passes(cfg, init, x.sender) {
        MediaKeepsSpeaker(k, es, S.Media(x.packet, x.index, x.sender, false, x.now));
      } else {
        assert es + [] == es;
      }
    }
  }

  lemma {:induction false} RunVideoSpeaker(cfg: FloorConfig, k: R.Profile, ins: seq<Input>)
    ensures S.Play(k, VideoEvents(cfg, ins)).s.speaker == HandleAll(cfg, Calls(ins)).video
  {
    if ins != [] {
      var init, x := ins[..|ins| - 1], ins[|ins| - 1];
      var es := VideoEvents(cfg, init);
      RunVideoSpeaker(cfg, k, init);
      ViewStep(cfg, ins);
      if x.Called? {
        CallSetsSpeaker(cfg, k, init, es, x.call, x.at);
      } else if x.Video? && Passes(cfg, init, x.sender) {
        MediaKeepsSpeaker(k, es, VideoEvent(x));
      } else {
        assert es + [] == es;
      }
    }
  }

  /** The handlers' view of the room is that of the run: floor and both rewriters' speakers. */
  lemma RunView(cfg: FloorConfig, audio: R.Profile, video: R.Profile, ins: seq<Input>)
    ensures HandleAll(cfg, Calls(ins)) ==
            RoomView(FloorAfter(cfg, ins), S.Play(audio, AudioEvents(cfg, ins)).s.speaker,
                     S.Play(video, VideoEvents(cfg, ins)).s.speaker)
  {
    RunFloor(cfg, ins);
    RunAudioSpeaker(cfg, audio, ins);
    RunVideoSpeaker(cfg, video, ins);
  }

  /** Since the rewriters were last switched, and not cleared again, no keyframe of the speaker has come. */
  ghost predicate KeyframeAwaited(cfg: FloorConfig, ins: seq<Input>) {
    ins != [] &&
    var init, x := ins[..|ins| - 1], ins[|ins| - 1];
    match x
    case Called(c, _) =>
      var moves := MovesOf(c, FloorOutcome(cfg, FloorAfter(cfg, init), c).actions);
      if moves == [] then KeyframeAwaited(cfg, init) else moves[|moves| - 1].SwitchedTo?
    case Video(p, _, u, key, _) => KeyframeAwaited(cfg, init) && !(key && |p| >= 12 && Passes(cfg, init, u))
    case _ => KeyframeAwaited(cfg, init)
  }

  lemma MovesSetPending(k: R.Profile, s: R.RewriteState, moves: seq<Move>, at: Instant)
    requires moves != []
    ensures StateAfter(k, s, moves, at).pendingKeyframe == (moves[|moves| - 1].SwitchedTo? && k.requireKeyframe)
  {
  }

  lemma {:induction false} PendingNeedsSpeaker(k: R.Profile, es: seq<S.Event>)
    ensures S.Play(k, es).s.pendingKeyframe ==> S.Play(k, es).s.speaker.Some?
  {
    if es != [] {
      PendingNeedsSpeaker(k, es[..|es| - 1]);
    }
  }

  lemma CallSetsPending(cfg: FloorConfig, k: R.Profile, ins: seq<Input>, es: seq<S.Event>, c: Call, at: Instant)
    requires k.requireKeyframe
    ensures var moves := MovesOf(c, FloorOutcome(cfg, FloorAfter(cfg, ins), c).actions);
            S.Play(k, es + CallEvents(cfg, ins, c, at)).s.pendingKeyframe ==
            if moves == [] then S.Play(k, es).s.pendingKeyframe else moves[|moves| - 1].SwitchedTo?
  {
    var moves := MovesOf(c, FloorOutcome(cfg, FloorAfter(cfg, ins), c).actions);
    MovesPlay(k, es, moves, at);
    if moves != [] {
      MovesSetPending(k, S.Play(k, es).s, moves, at);
    }
  }

  /** Only a keyframe of the rewriter's own speaker ends the wait. */
  lemma MediaSetsPending(k: R.Profile, es: seq<S.Event>, e: S.Event)
    requires e.Media?
    ensures S.Play(k, es + [e]).s.pendingKeyframe <==>
            && S.Play(k, es).s.pendingKeyframe
            && !(e.keyframe && |e.packet| >= 12 && S.Play(k, es).s.speaker == Some(e.sender))
  {
    S.PlayAppend(k, es, e);
  }

  /** While the video rewriter waits for a keyframe its speaker is the floor's. */
  lemma PendingAgrees(cfg: FloorConfig, k: R.Profile, ins: seq<Input>)
    requires S.Play(k, VideoEvents(cfg, ins)).s.pendingKeyframe
    ensures S.Play(k, VideoEvents(cfg, ins)).s.speaker == Speaker(FloorAfter(cfg, ins))
  {
    PendingNeedsSpeaker(k, VideoEvents(cfg, ins));
    RunVideoSpeaker(cfg, k, ins);
    RunFloor(cfg, ins);
    RewritersFollowFloor(cfg, Calls(ins));
  }

  /** Over every room run, the video rewriter waits for a keyframe exactly when one is awaited. */
  lemma {:induction false} PendingIsAwaited(cfg: FloorConfig, k: R.Profile, ins: seq<Input>)
    requires k.requireKeyframe
    ensures S.Play(k, VideoEvents(cfg, ins)).s.pendingKeyframe <==> KeyframeAwaited(cfg, ins)
  {
    if ins != [] {
      var init, x := ins[..|ins| - 1], ins[|ins| - 1];
      var es := VideoEvents(cfg, init);
      PendingIsAwaited(cfg, k, init);
      if x.Called? {
        CallSetsPending(cfg, k, init, es, x.call, x.at);
      } else if x.Video? && Passes(cfg, init, x.sender) {
        MediaSetsPending(k, es, VideoEvent(x));
        if KeyframeAwaited(cfg, init) {
          PendingAgrees(cfg, k, init);
        }
      } else {
        assert es + [] == es;
      }
    }
  }

  function IsVideo(p: R.Packet): bool {
    PayloadType(p) == VP8_PT || PayloadType(p) == H264_PT
  }

  /** What the run's state sends on for a packet. */
  function Fanout(cfg: FloorConfig, audioSsrc: u32, videoSsrc: u32, ins: seq<Input>, p: R.Packet, sender: UserId,
                  key: bool, now: Instant): Option<R.Packet>
  {
    var a, v := R.AudioProfile(audioSsrc), R.VideoProfile(videoSsrc);
    PrepareFanout(HandleAll(cfg, Calls(ins)), (a, S.Play(a, AudioEvents(cfg, ins)).s),
                  (v, S.Play(v, VideoEvents(cfg, ins)).s), p, sender, key, now)
  }

  lemma {:induction false} AudioNeverPending(ssrc: u32, es: seq<S.Event>)
    ensures !S.Play(R.AudioProfile(ssrc), es).s.pendingKeyframe
  {
    if es != [] {
      AudioNeverPending(ssrc, es[..|es| - 1]);
    }
  }

  /** Over every room run: a packet is sent on exactly when its sender holds the floor and it is not an ordinary video
      frame while a keyframe is awaited since the last switch. */
  lemma FanoutIff(cfg: FloorConfig, audioSsrc: u32, videoSsrc: u32, ins: seq<Input>, p: R.Packet, sender: UserId,
                  key: bool, now: Instant)
    ensures Fanout(cfg, audioSsrc, videoSsrc, ins, p, sender, key, now).Some? <==>
            && Speaker(FloorAfter(cfg, ins)) == Some(sender)
            && !(IsVideo(p) && !key && KeyframeAwaited(cfg, ins))
  {
    var a, v := R.AudioProfile(audioSsrc), R.VideoProfile(videoSsrc);
    RunView(cfg, a, v, ins);
    PendingIsAwaited(cfg, v, ins);
    PendingNeedsSpeaker(v, VideoEvents(cfg, ins));
    AudioNeverPending(audioSsrc, AudioEvents(cfg, ins));
    RewritersFollowFloor(cfg, Calls(ins));
  }

  lemma StreamAppends(k: R.Profile, t: S.Stream, e: S.Event)
    requires e.Media? && R.Verdict(t.s, e.packet, e.sender, e.keyframe).Ok?
    ensures S.Accepts(t, e)
    ensures S.Advance(k, t, e).sent[|t.sent|].packet == R.Rewritten(k, t.s, e.packet, e.sender, e.keyframe, e.now)
  {
  }

  /** Over every room run with a clean last move: the media packet sent on is the very one that the virtual stream
      appends for it, number, timestamp and payload; after a leave with handover it is the packet as it came. */
  lemma FanoutIsStream(cfg: FloorConfig, audioSsrc: u32, videoSsrc: u32, ins: seq<Input>, p: R.Packet, n: int,
                       sender: UserId, key: bool, now: Instant)
    requires PayloadType(p) == R.OPUS_PT || IsVideo(p)
    requires Fanout(cfg, audioSsrc, videoSsrc, ins, p, sender, key, now).Some?
    ensures var out := Fanout(cfg, audioSsrc, videoSsrc, ins, p, sender, key, now).value;
            var k := if IsVideo(p) then R.VideoProfile(videoSsrc) else R.AudioProfile(audioSsrc);
            var t := S.Play(k, if IsVideo(p) then VideoEvents(cfg, ins) else AudioEvents(cfg, ins));
            var e := S.Media(p, n, sender, IsVideo(p) && key, now);
            if LastMoveClean(cfg, Calls(ins)) then S.Accepts(t, e) && out == S.Advance(k, t, e).sent[|t.sent|].packet
            else out == p
  {
    var a, v := R.AudioProfile(audioSsrc), R.VideoProfile(videoSsrc);
    RunView(cfg, a, v, ins);
    FanoutFollowsAgreement(cfg, Calls(ins), (a, S.Play(a, AudioEvents(cfg, ins)).s),
                           (v, S.Play(v, VideoEvents(cfg, ins)).s), p, sender, key, now);
    if LastMoveClean(cfg, Calls(ins)) {
      if IsVideo(p) {
        StreamAppends(v, S.Play(v, VideoEvents(cfg, ins)), S.Media(p, n, sender, key, now));
      } else {
        StreamAppends(a, S.Play(a, AudioEvents(cfg, ins)), S.Media(p, n, sender, false, now));
      }
    }
  }

  // ---------------------------------------------------------------- who is on the floor and in the room

  predicate OnFloor(f: FloorInner, u: UserId) {
    Speaker(f) == Some(u) || InQueue(f.queue, u)
  }

  /** Speaker and waiters are all in the room. */
  ghost predicate AllPresent(f: FloorInner, members: set<UserId>) {
    forall u :: OnFloor(f, u) ==> u in members
  }

  /** The call as an event of the floor controller. */
  function AsFloorEvent(c: Call): FloorRuns.Event {
    match c
    case WsRequest(u, p, now) => FloorRuns.Request(u, p, now)
    case MbcpRequest(u, now) => FloorRuns.Request(u, DEFAULT_PRIORITY, now)
    case WsRelease(u, clock) => FloorRuns.Release(u, clock)
    case MbcpRelease(u, clock) => FloorRuns.Release(u, clock)
    case PingCall(u, now) => FloorRuns.Ping(u, now)
    case TimerCall(now, clock) => FloorRuns.Tick(now, clock)
    case LeaveCall(u, clock) => FloorRuns.Leave(u, clock)
  }

  lemma {:induction false} RunInv(cfg: FloorConfig, ins: seq<Input>)
    ensures FloorRuns.Inv(cfg, FloorAfter(cfg, ins))
  {
    if ins != [] {
      var init, x := ins[..|ins| - 1], ins[|ins| - 1];
      RunInv(cfg, init);
      if x.Called? {
        FloorRuns.StepKeepsInv(cfg, FloorAfter(cfg, init), AsFloorEvent(x.call));
      }
    }
  }

  lemma InQueueIff(q: seq<QueueEntry>, u: UserId)
    ensures InQueue(q, u) <==> exists i :: 0 <= i < |q| && q[i].userId == u
  {
    if InQueue(q, u) {
      assert q[Position(q, u)].userId == u;
    }
  }

  lemma StillInQueue(q: seq<QueueEntry>, v: UserId, u: UserId)
    ensures InQueue(Without(q, v), u) ==> InQueue(q, u) && u != v
  {
    FloorRuns.WithoutMembers(q, v);
    FloorRuns.AbsentIffNotInQueue(q, u);
    FloorRuns.AbsentIffNotInQueue(Without(q, v), u);
  }

  lemma TailInQueue(q: seq<QueueEntry>, u: UserId)
    requires q != [] && InQueue(q[1..], u)
    ensures InQueue(q, u)
  {
    FloorRuns.AbsentIffNotInQueue(q, u);
    FloorRuns.AbsentIffNotInQueue(q[1..], u);
  }

  /** Ending a burst brings nobody new to the floor. */
  lemma BurstEndsWithin(f: FloorInner, a: FloorAction, clock: nat, u: UserId)
    requires f.state.Taken? && OnFloor(AfterBurst(f, a, clock).inner, u)
    ensures InQueue(f.queue, u)
  {
    if f.queue != [] {
      if InQueue(f.queue[1..], u) {
        TailInQueue(f.queue, u);
      } else {
        assert Position(f.queue, u) == 0;
      }
    }
  }

  /** Only a request brings anybody to the floor, and only the one who asks; a leave takes its user off. */
  lemma FloorKeepsWithin(cfg: FloorConfig, f: FloorInner, c: Call, u: UserId)
    requires FloorRuns.Inv(cfg, f) && OnFloor(FloorOutcome(cfg, f, c).inner, u)
    ensures OnFloor(f, u) || ((c.WsRequest? || c.MbcpRequest?) && c.user == u)
    ensures !(c.LeaveCall? && c.user == u)
  {
    match c
    case WsRequest(v, p, now) => RequestKeepsWithin(cfg, f, v, p, now, u);
    case MbcpRequest(v, now) => RequestKeepsWithin(cfg, f, v, DEFAULT_PRIORITY, now, u);
    case PingCall(_, _) =>
    case TimerCall(_, clock) =>
      if f.state.Taken? && !OnFloor(f, u) {
        TimerKeepsWithin(cfg, f, c.now, clock, u);
      }
    case WsRelease(v, clock) => ReleaseKeepsWithin(f, v, clock, u);
    case MbcpRelease(v, clock) => ReleaseKeepsWithin(f, v, clock, u);
    case LeaveCall(v, clock) => LeaveKeepsWithin(f, v, clock, u);
  }

  lemma TimerKeepsWithin(cfg: FloorConfig, f: FloorInner, now: nat, clock: nat, u: UserId)
    requires f.state.Taken? && OnFloor(OnTimer(cfg, f, now, clock).inner, u)
    ensures OnFloor(f, u)
  {
    if SatSub(now, f.state.burstStart) > cfg.maxBurstMs {
      BurstEndsWithin(f, Revoked(f.state.speaker, "max burst exceeded"), clock, u);
    } else if SatSub(now, f.state.lastPing) > cfg.pingTimeoutMs {
      BurstEndsWithin(f, Revoked(f.state.speaker, "participant lost"), clock, u);
    }
  }

  lemma ReleaseKeepsWithin(f: FloorInner, v: UserId, clock: nat, u: UserId)
    requires OnFloor(OnRelease(f, v, clock).inner, u)
    ensures OnFloor(f, u)
  {
    if f.state.Taken? {
      if f.state.speaker == v {
        BurstEndsWithin(f, Released(v), clock, u);
      } else {
        StillInQueue(f.queue, v, u);
      }
    }
  }

  lemma LeaveKeepsWithin(f: FloorInner, v: UserId, clock: nat, u: UserId)
    requires OnFloor(OnLeave(f, v, clock).inner, u)
    ensures OnFloor(f, u) && u != v
  {
    StillInQueue(f.queue, v, u);
    var g := f.(queue := Without(f.queue, v));
    if g.state.Taken? && g.state.speaker == v {
      BurstEndsWithin(g, Released(v), clock, u);
    }
  }

  lemma RequestKeepsWithin(cfg: FloorConfig, f: FloorInner, v: UserId, p: u8, now: nat, u: UserId)
    requires FloorRuns.Inv(cfg, f) && OnFloor(OnRequest(cfg, f, v, p, now).inner, u)
    ensures OnFloor(f, u) || v == u
  {
    var entry := QueueEntry(v, p, now);
    var i := FloorRuns.Enqueue(f.queue, entry);
    var r := StableSort(f.queue + [entry]);
    FloorRuns.InsertedMembers(f.queue, entry, i, r);
    FloorRuns.AbsentIffNotInQueue(r, u);
    FloorRuns.AbsentIffNotInQueue(f.queue, u);
  }

  /** The user asks for the floor, and is neither in the room nor turned away. */
  predicate OutsiderAdmitted(cfg: FloorConfig, f: FloorInner, members: set<UserId>, c: Call) {
    (c.WsRequest? || c.MbcpRequest?) && c.user !in members && !FloorOutcome(cfg, f, c).actions[0].Denied?
  }

  /** What makes somebody on the floor absent: reaping them there, or admitting an outsider. */
  predicate Strands(cfg: FloorConfig, f: FloorInner, members: set<UserId>, x: Input) {
    match x
    case Reaped(u) => OnFloor(f, u)
    case Called(c, _) => OutsiderAdmitted(cfg, f, members, c)
    case _ => false
  }

  lemma AdmittedIsOnFloor(cfg: FloorConfig, f: FloorInner, c: Call)
    requires FloorRuns.Inv(cfg, f) && (c.WsRequest? || c.MbcpRequest?)
    ensures var o := FloorOutcome(cfg, f, c);
            o.actions != [] && if o.actions[0].Denied? then o.inner == f else OnFloor(o.inner, c.user)
  {
    FloorFits(cfg, f, c);
    FloorRuns.RequestAnswered(cfg, f, c.user, if c.WsRequest? then c.priority else DEFAULT_PRIORITY, c.now);
  }

  function MembersAfter(members: set<UserId>, x: Input): set<UserId> {
    match x
    case Joined(u) => members + {u}
    case Reaped(u) => members - {u}
    case Called(LeaveCall(u, _), _) => members - {u}
    case _ => members
  }

  lemma CallKeepsPresent(cfg: FloorConfig, f: FloorInner, members: set<UserId>, c: Call)
    requires FloorRuns.Inv(cfg, f) && AllPresent(f, members) && !OutsiderAdmitted(cfg, f, members, c)
    ensures AllPresent(FloorOutcome(cfg, f, c).inner, if c.LeaveCall? then members - {c.user} else members)
  {
    var g := FloorOutcome(cfg, f, c).inner;
    forall u | OnFloor(g, u)
      ensures u in members && !(c.LeaveCall? && c.user == u)
    {
      FloorKeepsWithin(cfg, f, c, u);
      if c.WsRequest? || c.MbcpRequest? {
        AdmittedIsOnFloor(cfg, f, c);
      }
    }
  }

  /** One step, from any state in which all are present: they still are exactly when nobody is stranded. */
  lemma PresentStep(cfg: FloorConfig, f: FloorInner, members: set<UserId>, x: Input)
    requires FloorRuns.Inv(cfg, f) && AllPresent(f, members)
    ensures var g := if x.Called? then FloorOutcome(cfg, f, x.call).inner else f;
            AllPresent(g, MembersAfter(members, x)) <==> !Strands(cfg, f, members, x)
  {
    if x.Called? {
      if Strands(cfg, f, members, x) {
        AdmittedIsOnFloor(cfg, f, x.call);
      } else {
        CallKeepsPresent(cfg, f, members, x.call);
      }
    }
  }

  /** At no point of the run is anybody on the floor who is not in the room. */
  ghost predicate PresentRun(cfg: FloorConfig, ins: seq<Input>) {
    AllPresent(FloorAfter(cfg, ins), Members(ins)) && (ins != [] ==> PresentRun(cfg, ins[..|ins| - 1]))
  }

  /** Nobody is reaped while on the floor, and no outsider is admitted to it. */
  predicate NobodyStranded(cfg: FloorConfig, ins: seq<Input>) {
    ins != [] ==>
      var init, x := ins[..|ins| - 1], ins[|ins| - 1];
      NobodyStranded(cfg, init) && !Strands(cfg, FloorAfter(cfg, init), Members(init), x)
  }

  /** Speaker and waiters are room members all through a run exactly when nobody is reaped while on the floor and no
      request of somebody outside the room is admitted. */
  lemma {:induction false} FloorIsInRoomIff(cfg: FloorConfig, ins: seq<Input>)
    ensures PresentRun(cfg, ins) <==> NobodyStranded(cfg, ins)
  {
    if ins != [] {
      var init, x := ins[..|ins| - 1], ins[|ins| - 1];
      FloorIsInRoomIff(cfg, init);
      RunInv(cfg, init);
      assert Members(ins) == MembersAfter(Members(init), x);
      if PresentRun(cfg, init) {
        PresentStep(cfg, FloorAfter(cfg, init), Members(init), x);
      }
    }
  }

  lemma BothOnFloor(cfg: FloorConfig)
    requires cfg.queuingEnabled && cfg.maxQueueSize >= 1
    ensures var ins := TwoThere() + [Called(WsRequest("A", 0, 0), 0)] + [Called(WsRequest("B", 0, 1), 0)];
            && "B" in Members(ins)
            && FloorAfter(cfg, ins) == FloorInner(Taken("A", 0, 0, 0), [QueueEntry("B", 0, 1)], None)
  {
    TwoThereState(cfg);
    GrantEvents(cfg, TwoThere(), "A", 0, 0);
    AudioAppend(cfg, TwoThere() + [Called(WsRequest("A", 0, 0), 0)], Called(WsRequest("B", 0, 1), 0));
    OneWaits(cfg);
  }

  /** A reaped waiter gets the floor: "B" waits behind "A" and is reaped, then "A" releases. */
  lemma ReapedWaiterSpeaks(cfg: FloorConfig)
    requires cfg.queuingEnabled && cfg.maxQueueSize >= 1
    ensures var ins := TwoThere() + [Called(WsRequest("A", 0, 0), 0)] + [Called(WsRequest("B", 0, 1), 0)]
                       + [Reaped("B")] + [Called(WsRelease("A", 2), 0)];
            Speaker(FloorAfter(cfg, ins)) == Some("B") && "B" !in Members(ins)
  {
    var ins := TwoThere() + [Called(WsRequest("A", 0, 0), 0)] + [Called(WsRequest("B", 0, 1), 0)];
    BothOnFloor(cfg);
    AudioAppend(cfg, ins, Reaped("B"));
    AudioAppend(cfg, ins + [Reaped("B")], Called(WsRelease("A", 2), 0));
  }
}
