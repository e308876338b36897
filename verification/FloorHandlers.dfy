/** The handlers that drive a push-to-talk room: each calls the floor controller and then applies the
    returned actions to the audio and the video rewriter, every handler in its own way. Silence frames are broadcast
    only by the WebSocket release and by the leave and disconnect paths. */
module FloorHandlers {
  import opened Words
  import opened Floor
  import R = PttRewriter
  import S = PttStream

  /** A handler invocation, atomic with respect to the room. */
  datatype Call =
    | WsRequest(user: UserId, priority: u8, now: nat)
    | WsRelease(user: UserId, clock: nat)
    | MbcpRequest(user: UserId, now: nat)
    | MbcpRelease(user: UserId, clock: nat)
    | PingCall(user: UserId, now: nat)
    | TimerCall(now: nat, clock: nat)
    | LeaveCall(user: UserId, clock: nat)

  /** The floor, and whom each rewriter takes for the speaker. */
  datatype RoomView = RoomView(floor: FloorInner, audio: Option<UserId>, video: Option<UserId>)

  function FloorOutcome(cfg: FloorConfig, f: FloorInner, c: Call): Outcome {
    match c
    case WsRequest(u, p, now) => OnRequest(cfg, f, u, p, now)
    case MbcpRequest(u, now) => OnRequest(cfg, f, u, DEFAULT_PRIORITY, now)
    case WsRelease(u, clock) => OnRelease(f, u, clock)
    case MbcpRelease(u, clock) => OnRelease(f, u, clock)
    case PingCall(u, now) => OnPing(f, u, now)
    case TimerCall(now, clock) => OnTimer(cfg, f, now, clock)
    case LeaveCall(u, clock) => OnLeave(f, u, clock)
  }

  // ---------------------------------------------------------------- the action loops

  /** What a handler does to both rewriters. */
  datatype Move = SwitchedTo(user: UserId) | Cleared(broadcast: bool)

  /** The WebSocket loops: a grant switches the speaker, nothing else touches the rewriters. */
  function Grants(actions: seq<FloorAction>): seq<Move> {
    if actions == [] then []
    else
      var a := actions[|actions| - 1];
      Grants(actions[..|actions| - 1]) + if a.Granted? then [SwitchedTo(a.grantee)] else []
  }

  /** The timer and MBCP loops: a revocation clears, a grant switches; the silence is thrown away. */
  function RevokesAndGrants(actions: seq<FloorAction>): seq<Move> {
    if actions == [] then []
    else
      var a := actions[|actions| - 1];
      RevokesAndGrants(actions[..|actions| - 1])
      + if a.Granted? then [SwitchedTo(a.grantee)] else if a.Revoked? then [Cleared(false)] else []
  }

  /** The release handlers' first loop: every Released clears. */
  function Releases(actions: seq<FloorAction>, broadcast: bool): seq<Move> {
    if actions == [] then []
    else
      Releases(actions[..|actions| - 1], broadcast)
      + if actions[|actions| - 1].Released? then [Cleared(broadcast)] else []
  }

  function MovesOf(c: Call, actions: seq<FloorAction>): seq<Move> {
    match c
    case WsRequest(_, _, _) => Grants(actions)
    case MbcpRequest(_, _) => RevokesAndGrants(actions)
    case WsRelease(_, _) => Releases(actions, true) + Grants(actions)
    case MbcpRelease(_, _) => Releases(actions, false) + RevokesAndGrants(actions)
    case PingCall(_, _) => []
    case TimerCall(_, _) => RevokesAndGrants(actions)
    case LeaveCall(_, _) => if actions == [] then [] else Grants(actions) + [Cleared(true)]
  }

  /** Whom a rewriter that had `speaker` takes for the speaker after the moves. */
  function SpeakerAfter(moves: seq<Move>, speaker: Option<UserId>): Option<UserId> {
    if moves == [] then speaker
    else
      var m := moves[|moves| - 1];
      if m.SwitchedTo? then Some(m.user) else None
  }

  function StateAfter(k: R.Profile, s: R.RewriteState, moves: seq<Move>, at: Instant): R.RewriteState {
    if moves == [] then s
    else
      var before, m := StateAfter(k, s, moves[..|moves| - 1], at), moves[|moves| - 1];
      if m.SwitchedTo? then R.Switch(k, before, m.user, at) else R.Clear(k, before, at)
  }

  /** The silence frames the moves send to the subscribers. */
  function SilenceOf(k: R.Profile, s: R.RewriteState, moves: seq<Move>, at: Instant): seq<R.Packet> {
    if moves == [] then []
    else
      var init, m := moves[..|moves| - 1], moves[|moves| - 1];
      SilenceOf(k, s, init, at) + if m == Cleared(true) then S.Frames(k, StateAfter(k, s, init, at)) else []
  }

  /** The moves as calls on one rewriter. */
  function AsEvents(moves: seq<Move>, at: Instant): seq<S.Event> {
    if moves == [] then []
    else AsEvents(moves[..|moves| - 1], at) + [AsEvent(moves[|moves| - 1], at)]
  }

  function Handle(cfg: FloorConfig, v: RoomView, c: Call): RoomView {
    var o := FloorOutcome(cfg, v.floor, c);
    var moves := MovesOf(c, o.actions);
    RoomView(o.inner, SpeakerAfter(moves, v.audio), SpeakerAfter(moves, v.video))
  }

  function HandleAll(cfg: FloorConfig, cs: seq<Call>): RoomView {
    if cs == [] then RoomView(INITIAL, None, None)
    else Handle(cfg, HandleAll(cfg, cs[..|cs| - 1]), cs[|cs| - 1])
  }

  lemma {:induction false} StateSpeaker(k: R.Profile, s: R.RewriteState, moves: seq<Move>, at: Instant)
    ensures StateAfter(k, s, moves, at).speaker == SpeakerAfter(moves, s.speaker)
  {
    if moves != [] {
      StateSpeaker(k, s, moves[..|moves| - 1], at);
    }
  }

  lemma {:induction false} StateAfterBoth(k: R.Profile, s: R.RewriteState, a: seq<Move>, b: seq<Move>, at: Instant)
    ensures StateAfter(k, s, a + b, at) == StateAfter(k, StateAfter(k, s, a, at), b, at)
    decreases b
  {
    if b == [] {
      assert a + b == a;
    } else {
      StateAfterBoth(k, s, a, b[..|b| - 1], at);
      assert (a + b)[..|a + b| - 1] == a + b[..|b| - 1];
    }
  }

  lemma {:induction false} SilenceOfBoth(k: R.Profile, s: R.RewriteState, a: seq<Move>, b: seq<Move>, at: Instant)
    ensures SilenceOf(k, s, a + b, at) == SilenceOf(k, s, a, at) + SilenceOf(k, StateAfter(k, s, a, at), b, at)
    decreases b
  {
    if b == [] {
      assert a + b == a;
    } else {
      var init, t := b[..|b| - 1], StateAfter(k, s, a, at);
      SilenceOfBoth(k, s, a, init, at);
      StateAfterBoth(k, s, a, init, at);
      assert (a + b)[..|a + b| - 1] == a + init;
      AppendAssociative(SilenceOf(k, s, a, at), SilenceOf(k, t, init, at),
                        if b[|b| - 1] == Cleared(true) then S.Frames(k, StateAfter(k, t, init, at)) else []);
    }
  }

  function AsEvent(m: Move, at: Instant): S.Event {
    if m.SwitchedTo? then S.SwitchTo(m.user, at) else S.ClearFloor(at, m.broadcast)
  }

  lemma AdvanceMove(k: R.Profile, t: S.Stream, m: Move, at: Instant)
    ensures var u := S.Advance(k, t, AsEvent(m, at));
            && u.s == (if m.SwitchedTo? then R.Switch(k, t.s, m.user, at) else R.Clear(k, t.s, at))
            && Sends(t, u, if m == Cleared(true) then S.Frames(k, t.s) else [])
  {
  }

  /** From `t` to `u` the subscribers were sent the frames. */
  ghost predicate Sends(t: S.Stream, u: S.Stream, frames: seq<R.Packet>) {
    && |u.sent| == |t.sent| + |frames| && t.sent <= u.sent
    && forall i :: 0 <= i < |frames| ==> u.sent[|t.sent| + i].packet == frames[i]
  }

  lemma SendsTwice(t: S.Stream, u: S.Stream, w: S.Stream, a: seq<R.Packet>, b: seq<R.Packet>)
    requires Sends(t, u, a) && Sends(u, w, b)
    ensures Sends(t, w, a + b)
  {
    forall i | 0 <= i < |a + b|
      ensures w.sent[|t.sent| + i].packet == (a + b)[i]
    {
      if i < |a| {
        assert w.sent[|t.sent| + i] == u.sent[|t.sent| + i];
      } else {
        assert w.sent[|u.sent| + (i - |a|)].packet == b[i - |a|];
      }
    }
  }

  lemma PlayMove(k: R.Profile, es: seq<S.Event>, moves: seq<Move>, at: Instant)
    requires moves != []
    ensures S.Play(k, es + AsEvents(moves, at)) ==
            S.Advance(k, S.Play(k, es + AsEvents(moves[..|moves| - 1], at)), AsEvent(moves[|moves| - 1], at))
  {
    var before, e := AsEvents(moves[..|moves| - 1], at), AsEvent(moves[|moves| - 1], at);
    AppendAssociative(es, before, [e]);
    S.PlayAppend(k, es + before, e);
  }

  /** A handler's moves, appended to any run of a rewriter: its state follows, and the subscribers receive exactly the
      broadcast silence. */
  lemma {:induction false} MovesPlay(k: R.Profile, es: seq<S.Event>, moves: seq<Move>, at: Instant)
    ensures var t, u := S.Play(k, es), S.Play(k, es + AsEvents(moves, at));
            u.s == StateAfter(k, t.s, moves, at) && Sends(t, u, SilenceOf(k, t.s, moves, at))
    decreases moves
  {
    var t := S.Play(k, es);
    if moves == [] {
      assert es + AsEvents(moves, at) == es;
    } else {
      var init, m := moves[..|moves| - 1], moves[|moves| - 1];
      var before := S.Play(k, es + AsEvents(init, at));
      MovesPlay(k, es, init, at);
      PlayMove(k, es, moves, at);
      AdvanceMove(k, before, m, at);
      SendsTwice(t, before, S.Play(k, es + AsEvents(moves, at)), SilenceOf(k, t.s, init, at),
                 if m == Cleared(true) then S.Frames(k, before.s) else []);
    }
  }

  /** Only the WebSocket release and the leave paths broadcast the silence they flush. */
  lemma {:induction false} WhoBroadcasts(c: Call, actions: seq<FloorAction>, i: nat)
    requires i < |MovesOf(c, actions)| && MovesOf(c, actions)[i].Cleared?
    ensures MovesOf(c, actions)[i].broadcast <==> c.WsRelease? || c.LeaveCall?
  {
    ClearedAs(actions, true);
    ClearedAs(actions, false);
  }

  lemma {:induction false} ClearedAs(actions: seq<FloorAction>, broadcast: bool)
    ensures forall i :: 0 <= i < |Grants(actions)| ==> Grants(actions)[i].SwitchedTo?
    ensures forall i :: 0 <= i < |RevokesAndGrants(actions)| && RevokesAndGrants(actions)[i].Cleared? ==>
              !RevokesAndGrants(actions)[i].broadcast
    ensures forall i :: 0 <= i < |Releases(actions, broadcast)| ==>
              Releases(actions, broadcast)[i] == Cleared(broadcast)
  {
    if actions != [] {
      ClearedAs(actions[..|actions| - 1], broadcast);
    }
  }

  // ---------------------------------------------------------------- agreement

  predicate Agree(v: RoomView) {
    v.audio == Speaker(v.floor) && v.video == Speaker(v.floor)
  }

  /** The call grants, releases or revokes the floor. */
  predicate MovesFloor(cfg: FloorConfig, f: FloorInner, c: Call) {
    var actions := FloorOutcome(cfg, f, c).actions;
    actions != [] && Moving(actions[0])
  }

  /** The speaker leaves while somebody waits: the grant is applied first and cleared afterwards. */
  predicate LeaveWithHandover(f: FloorInner, c: Call) {
    c.LeaveCall? && Speaker(f) == Some(c.user) && Without(f.queue, c.user) != []
  }

  /** The actions that change the speaker. */
  predicate Moving(a: FloorAction) {
    a.Granted? || a.Released? || a.Revoked?
  }

  /** The lists of actions a call can produce. */
  predicate Fitting(c: Call, actions: seq<FloorAction>) {
    && |actions| <= 2
    && (|actions| == 2 ==> actions[1].Granted? && !actions[0].Granted? && Moving(actions[0]))
    && (actions != [] ==>
          match c {
            case WsRequest(_, _, _) => !actions[0].Released? && (actions[0].Revoked? ==> |actions| == 2)
            case MbcpRequest(_, _) => !actions[0].Released? && (actions[0].Revoked? ==> |actions| == 2)
            case PingCall(_, _) => |actions| == 1 && !Moving(actions[0])
            case TimerCall(_, _) => actions[0].Revoked?
            case _ => actions[0].Released?
          })
  }

  /** The speaker a list of actions leaves, if it moves the floor at all. */
  function Announced(actions: seq<FloorAction>): Option<UserId> {
    if actions != [] && actions[|actions| - 1].Granted? then Some(actions[|actions| - 1].grantee) else None
  }

  lemma FloorFits(cfg: FloorConfig, f: FloorInner, c: Call)
    ensures var o := FloorOutcome(cfg, f, c);
            && Fitting(c, o.actions)
            && Speaker(o.inner) == (if MovesFloor(cfg, f, c) then Announced(o.actions) else Speaker(f))
            && (c.LeaveCall? ==> (|o.actions| == 2 <==> LeaveWithHandover(f, c)))
  {
  }

  lemma OneAction(a: FloorAction, broadcast: bool)
    ensures Grants([a]) == if a.Granted? then [SwitchedTo(a.grantee)] else []
    ensures RevokesAndGrants([a]) ==
            if a.Granted? then [SwitchedTo(a.grantee)] else if a.Revoked? then [Cleared(false)] else []
    ensures Releases([a], broadcast) == if a.Released? then [Cleared(broadcast)] else []
  {
    assert [a][..0] == [];
  }

  lemma ThenGrant(a: FloorAction, b: FloorAction)
    requires b.Granted?
    ensures Grants([a, b]) == Grants([a]) + [SwitchedTo(b.grantee)]
    ensures RevokesAndGrants([a, b]) == RevokesAndGrants([a]) + [SwitchedTo(b.grantee)]
  {
    assert [a, b][..1] == [a];
  }

  function AnnouncedBy(c: Call, actions: seq<FloorAction>, s: Option<UserId>): Option<UserId> {
    if actions == [] || !Moving(actions[0]) then s else if c.LeaveCall? then None else Announced(actions)
  }

  lemma OneAnnounces(c: Call, a: FloorAction, s: Option<UserId>)
    requires Fitting(c, [a])
    ensures SpeakerAfter(MovesOf(c, [a]), s) == AnnouncedBy(c, [a], s)
  {
    OneAction(a, true);
    OneAction(a, false);
  }

  lemma TwoAnnounce(c: Call, a: FloorAction, b: FloorAction, s: Option<UserId>)
    requires Fitting(c, [a, b])
    ensures SpeakerAfter(MovesOf(c, [a, b]), s) == AnnouncedBy(c, [a, b], s)
  {
    ThenGrant(a, b);
  }

  lemma MovesAnnounce(c: Call, actions: seq<FloorAction>, s: Option<UserId>)
    requires Fitting(c, actions)
    ensures SpeakerAfter(MovesOf(c, actions), s) == AnnouncedBy(c, actions, s)
  {
    if |actions| == 1 {
      assert actions == [actions[0]];
      OneAnnounces(c, actions[0], s);
    } else if |actions| == 2 {
      assert actions == [actions[0], actions[1]];
      TwoAnnounce(c, actions[0], actions[1], s);
    }
  }

  /** One call, from any state: a call that moves the floor leaves both rewriters with the floor's speaker, unless it
      is a leave that hands over, which leaves them without one; any other call changes no speaker. */
  lemma SpeakersAfterCall(cfg: FloorConfig, v: RoomView, c: Call)
    ensures var w := Handle(cfg, v, c);
            if !MovesFloor(cfg, v.floor, c) then
              w.audio == v.audio && w.video == v.video && Speaker(w.floor) == Speaker(v.floor)
            else if LeaveWithHandover(v.floor, c) then w.audio == None && w.video == None && Speaker(w.floor) != None
            else Agree(w)
  {
    var actions := FloorOutcome(cfg, v.floor, c).actions;
    FloorFits(cfg, v.floor, c);
    MovesAnnounce(c, actions, v.audio);
    MovesAnnounce(c, actions, v.video);
  }

  lemma AgreementStep(cfg: FloorConfig, v: RoomView, c: Call)
    ensures Agree(Handle(cfg, v, c)) <==>
              if MovesFloor(cfg, v.floor, c) then !LeaveWithHandover(v.floor, c) else Agree(v)
  {
    SpeakersAfterCall(cfg, v, c);
  }

  /** The last call that moved the floor, if any, was not a leave with handover. */
  ghost predicate LastMoveClean(cfg: FloorConfig, cs: seq<Call>) {
    cs != [] ==>
      var v, c := HandleAll(cfg, cs[..|cs| - 1]), cs[|cs| - 1];
      if MovesFloor(cfg, v.floor, c) then !LeaveWithHandover(v.floor, c)
      else LastMoveClean(cfg, cs[..|cs| - 1])
  }

  /** After any run of handler calls, both rewriters follow the floor exactly when the last floor movement was not a
      speaker leaving while somebody waited; otherwise neither has a speaker. */
  lemma {:induction false} RewritersFollowFloor(cfg: FloorConfig, cs: seq<Call>)
    ensures var v := HandleAll(cfg, cs);
            && (Agree(v) <==> LastMoveClean(cfg, cs))
            && (Agree(v) || (v.audio == None && v.video == None))
  {
    if cs != [] {
      RewritersFollowFloor(cfg, cs[..|cs| - 1]);
      SpeakersAfterCall(cfg, HandleAll(cfg, cs[..|cs| - 1]), cs[|cs| - 1]);
    }
  }

  lemma HandleNext(cfg: FloorConfig, cs: seq<Call>, c: Call)
    ensures HandleAll(cfg, cs + [c]) == Handle(cfg, HandleAll(cfg, cs), c)
  {
    assert (cs + [c])[..|cs|] == cs;
  }

  lemma OneWaits(cfg: FloorConfig)
    requires cfg.queuingEnabled && cfg.maxQueueSize >= 1
    ensures var f := OnRequest(cfg, FloorInner(Taken("A", 0, 0, 0), [], None), "B", 0, 1).inner;
            && f == FloorInner(Taken("A", 0, 0, 0), [QueueEntry("B", 0, 1)], None)
            && Without(f.queue, "A") != [] && Without(f.queue, "A")[0].userId == "B"
  {
    var entry := QueueEntry("B", 0, 1);
    assert [] + [entry] == [entry] && [entry][..0] == [];
    assert StableSort([entry]) == [entry];
  }

  /** A run that loses agreement: "B" waits behind "A", who leaves. */
  lemma HandoverOnLeaveDisagrees(cfg: FloorConfig)
    requires cfg.queuingEnabled && cfg.maxQueueSize >= 1
    ensures var v := HandleAll(cfg, [] + [WsRequest("A", 0, 0)] + [WsRequest("B", 0, 1)] + [LeaveCall("A", 2)]);
            Speaker(v.floor) == Some("B") && v.audio == None && v.video == None
  {
    HandleNext(cfg, [], WsRequest("A", 0, 0));
    HandleNext(cfg, [] + [WsRequest("A", 0, 0)], WsRequest("B", 0, 1));
    HandleNext(cfg, [] + [WsRequest("A", 0, 0)] + [WsRequest("B", 0, 1)], LeaveCall("A", 2));
    OneWaits(cfg);
    SpeakersAfterCall(cfg, HandleAll(cfg, [] + [WsRequest("A", 0, 0)] + [WsRequest("B", 0, 1)]), LeaveCall("A", 2));
  }

  // ---------------------------------------------------------------- the room

  class PttRoom {
    const floor: FloorController
    const audio: R.Rewriter
    const video: R.Rewriter

    ghost predicate Valid() {
      audio != video
    }

    ghost function View(): RoomView
      reads floor, audio, video
    {
      RoomView(floor.Inner(), audio.state.speaker, video.state.speaker)
    }

    constructor (cfg: FloorConfig, audioSsrc: u32, videoSsrc: u32)
      ensures Valid() && fresh(floor) && fresh(audio) && fresh(video)
      ensures floor.config == cfg && View() == RoomView(INITIAL, None, None)
      ensures audio.state == R.INITIAL && video.state == R.INITIAL
    {
      floor := new FloorController(cfg);
      audio := new R.Rewriter(R.AudioProfile(audioSsrc));
      video := new R.Rewriter(R.VideoProfile(videoSsrc));
    }

    /** The rewriters made the moves since they were in states `a` and `v`. */
    ghost predicate Moved(a: R.RewriteState, v: R.RewriteState, moves: seq<Move>, at: Instant)
      reads audio, video
    {
      && audio.state == StateAfter(audio.profile, a, moves, at)
      && video.state == StateAfter(video.profile, v, moves, at)
    }

    method SwitchBoth(user: UserId, now: Instant)
      requires Valid()
      modifies audio, video
      ensures audio.state == R.Switch(audio.profile, old(audio.state), user, now)
      ensures video.state == R.Switch(video.profile, old(video.state), user, now)
    {
      audio.SwitchSpeaker(user, now);
      video.SwitchSpeaker(user, now);
    }

    /** Clears both rewriters; returns the silence frames, for the caller to broadcast or throw away. */
    method ClearBoth(now: Instant) returns (silence: seq<R.Packet>)
      requires Valid()
      modifies audio, video
      ensures audio.state == R.Clear(audio.profile, old(audio.state), now)
      ensures video.state == R.Clear(video.profile, old(video.state), now)
      ensures silence == S.Frames(audio.profile, old(audio.state))
    {
      var frames := audio.ClearSpeaker(now);
      var _ := video.ClearSpeaker(now);
      silence := if frames.Some? then frames.value else [];
    }

    method ApplyGrants(actions: seq<FloorAction>, at: Instant)
      requires Valid()
      modifies audio, video
      ensures Moved(old(audio.state), old(video.state), Grants(actions), at)
    {
      for i := 0 to |actions|
        invariant Moved(old(audio.state), old(video.state), Grants(actions[..i]), at)
      {
        assert actions[..i + 1][..i] == actions[..i];
        ghost var moves := Grants(actions[..i]);
        match actions[i]
        case Granted(speaker, _, _) =>
          assert (moves + [SwitchedTo(speaker)])[..|moves|] == moves;
          SwitchBoth(speaker, at);
        case _ =>
          assert moves + [] == moves;
      }
      assert actions[..|actions|] == actions;
    }

    method ApplyRevokesAndGrants(actions: seq<FloorAction>, at: Instant)
      requires Valid()
      modifies audio, video
      ensures Moved(old(audio.state), old(video.state), RevokesAndGrants(actions), at)
    {
      for i := 0 to |actions|
        invariant Moved(old(audio.state), old(video.state), RevokesAndGrants(actions[..i]), at)
      {
        assert actions[..i + 1][..i] == actions[..i];
        ghost var moves := RevokesAndGrants(actions[..i]);
        match actions[i]
        case Granted(speaker, _, _) =>
          assert (moves + [SwitchedTo(speaker)])[..|moves|] == moves;
          SwitchBoth(speaker, at);
        case Revoked(_, _) =>
          assert (moves + [Cleared(false)])[..|moves|] == moves;
          var _ := ClearBoth(at);
        case _ =>
          assert moves + [] == moves;
      }
      assert actions[..|actions|] == actions;
    }

    /** Clears on every Released; returns the frames broadcast. */
    method ApplyReleases(actions: seq<FloorAction>, broadcast: bool, at: Instant) returns (sent: seq<R.Packet>)
      requires Valid()
      modifies audio, video
      ensures Moved(old(audio.state), old(video.state), Releases(actions, broadcast), at)
      ensures sent == SilenceOf(audio.profile, old(audio.state), Releases(actions, broadcast), at)
    {
      sent := [];
      for i := 0 to |actions|
        invariant Moved(old(audio.state), old(video.state), Releases(actions[..i], broadcast), at)
        invariant sent == SilenceOf(audio.profile, old(audio.state), Releases(actions[..i], broadcast), at)
      {
        assert actions[..i + 1][..i] == actions[..i];
        ghost var moves := Releases(actions[..i], broadcast);
        if actions[i].Released? {
          assert (moves + [Cleared(broadcast)])[..|moves|] == moves;
          var silence := ClearBoth(at);
          if broadcast {
            sent := sent + silence;
          }
        } else {
          assert moves + [] == moves;
        }
      }
      assert actions[..|actions|] == actions;
    }

    /** What a call does, from floor and speakers `before` and rewriter states `a` and `v`: the floor's own effect, the
        moves of both rewriters, and the silence sent. */
    ghost predicate Did(before: RoomView, a: R.RewriteState, v: R.RewriteState, c: Call, at: Instant,
                        sent: seq<R.Packet>)
      reads floor, audio, video
    {
      var moves := MovesOf(c, FloorOutcome(floor.config, before.floor, c).actions);
      && View() == Handle(floor.config, before, c)
      && Moved(a, v, moves, at)
      && sent == SilenceOf(audio.profile, a, moves, at)
    }

    lemma DidIt(before: RoomView, a: R.RewriteState, v: R.RewriteState, c: Call, o: Outcome, at: Instant,
                sent: seq<R.Packet>)
      requires before.audio == a.speaker && before.video == v.speaker
      requires o == FloorOutcome(floor.config, before.floor, c)
      requires floor.Inner() == o.inner && Moved(a, v, MovesOf(c, o.actions), at)
      requires sent == SilenceOf(audio.profile, a, MovesOf(c, o.actions), at)
      ensures Did(before, a, v, c, at, sent)
    {
      StateSpeaker(audio.profile, a, MovesOf(c, o.actions), at);
      StateSpeaker(video.profile, v, MovesOf(c, o.actions), at);
    }

    method HandleFloorRequest(user: UserId, priority: u8, now: nat, at: Instant)
      requires Valid()
      modifies floor, audio, video
      ensures Did(old(View()), old(audio.state), old(video.state), WsRequest(user, priority, now), at, [])
    {
      var actions := floor.Request(user, priority, now);
      ApplyGrants(actions, at);
      QuietLoops(audio.profile, old(audio.state), actions, at);
      DidIt(old(View()), old(audio.state), old(video.state), WsRequest(user, priority, now),
            Outcome(floor.Inner(), actions), at, []);
    }

    /** Returns the silence broadcast to the subscribers. */
    method HandleFloorRelease(user: UserId, clock: nat, at: Instant) returns (sent: seq<R.Packet>)
      requires Valid()
      modifies floor, audio, video
      ensures Did(old(View()), old(audio.state), old(video.state), WsRelease(user, clock), at, sent)
    {
      var actions := floor.Release(user, clock);
      sent := ApplyReleases(actions, true, at);
      ghost var a, v := audio.state, video.state;
      ApplyGrants(actions, at);
      QuietLoops(audio.profile, a, actions, at);
      StateAfterBoth(audio.profile, old(audio.state), Releases(actions, true), Grants(actions), at);
      SilenceOfBoth(audio.profile, old(audio.state), Releases(actions, true), Grants(actions), at);
      StateAfterBoth(video.profile, old(video.state), Releases(actions, true), Grants(actions), at);
      DidIt(old(View()), old(audio.state), old(video.state), WsRelease(user, clock),
            Outcome(floor.Inner(), actions), at, sent);
    }

    method HandleFloorPing(user: UserId, now: nat, at: Instant)
      requires Valid()
      modifies floor
      ensures Did(old(View()), old(audio.state), old(video.state), PingCall(user, now), at, [])
    {
      var _ := floor.Ping(user, now);
    }

    method HandleMbcpRequest(user: UserId, now: nat, at: Instant)
      requires Valid()
      modifies floor, audio, video
      ensures Did(old(View()), old(audio.state), old(video.state), MbcpRequest(user, now), at, [])
    {
      var actions := floor.Request(user, DEFAULT_PRIORITY, now);
      ApplyRevokesAndGrants(actions, at);
      QuietLoops(audio.profile, old(audio.state), actions, at);
      DidIt(old(View()), old(audio.state), old(video.state), MbcpRequest(user, now),
            Outcome(floor.Inner(), actions), at, []);
    }

    method HandleMbcpRelease(user: UserId, clock: nat, at: Instant)
      requires Valid()
      modifies floor, audio, video
      ensures Did(old(View()), old(audio.state), old(video.state), MbcpRelease(user, clock), at, [])
    {
      var actions := floor.Release(user, clock);
      var none := ApplyReleases(actions, false, at);
      ghost var a := audio.state;
      ApplyRevokesAndGrants(actions, at);
      QuietLoops(audio.profile, old(audio.state), actions, at);
      QuietLoops(audio.profile, a, actions, at);
      StateAfterBoth(audio.profile, old(audio.state), Releases(actions, false), RevokesAndGrants(actions), at);
      SilenceOfBoth(audio.profile, old(audio.state), Releases(actions, false), RevokesAndGrants(actions), at);
      StateAfterBoth(video.profile, old(video.state), Releases(actions, false), RevokesAndGrants(actions), at);
      DidIt(old(View()), old(audio.state), old(video.state), MbcpRelease(user, clock),
            Outcome(floor.Inner(), actions), at, []);
    }

    method RunFloorTimer(now: nat, clock: nat, at: Instant)
      requires Valid()
      modifies floor, audio, video
      ensures Did(old(View()), old(audio.state), old(video.state), TimerCall(now, clock), at, [])
    {
      var actions := floor.CheckTimers(now, clock);
      ApplyRevokesAndGrants(actions, at);
      QuietLoops(audio.profile, old(audio.state), actions, at);
      DidIt(old(View()), old(audio.state), old(video.state), TimerCall(now, clock),
            Outcome(floor.Inner(), actions), at, []);
    }

    /** Clears both rewriters and broadcasts the silence. */
    method FlushSilence(at: Instant, ghost a: R.RewriteState, ghost v: R.RewriteState, ghost moves: seq<Move>)
      returns (sent: seq<R.Packet>)
      requires Valid() && Moved(a, v, moves, at) && SilenceOf(audio.profile, a, moves, at) == []
      modifies audio, video
      ensures Moved(a, v, moves + [Cleared(true)], at)
      ensures sent == SilenceOf(audio.profile, a, moves + [Cleared(true)], at)
    {
      assert (moves + [Cleared(true)])[..|moves|] == moves;
      sent := ClearBoth(at);
      assert [] + sent == sent;
    }

    method LeaveActions(actions: seq<FloorAction>, at: Instant, ghost c: Call) returns (sent: seq<R.Packet>)
      requires Valid() && c.LeaveCall?
      modifies audio, video
      ensures Moved(old(audio.state), old(video.state), MovesOf(c, actions), at)
      ensures sent == SilenceOf(audio.profile, old(audio.state), MovesOf(c, actions), at)
    {
      sent := [];
      if actions != [] {
        ApplyGrants(actions, at);
        QuietLoops(audio.profile, old(audio.state), actions, at);
        sent := FlushSilence(at, old(audio.state), old(video.state), Grants(actions));
      }
    }

    /** ROOM_LEAVE and the disconnect cleanup: actions first, then the silence flush, which is broadcast. */
    method HandleLeave(user: UserId, clock: nat, at: Instant) returns (sent: seq<R.Packet>)
      requires Valid()
      modifies floor, audio, video
      ensures Did(old(View()), old(audio.state), old(video.state), LeaveCall(user, clock), at, sent)
    {
      var actions := floor.OnParticipantLeave(user, clock);
      sent := LeaveActions(actions, at, LeaveCall(user, clock));
      DidIt(old(View()), old(audio.state), old(video.state), LeaveCall(user, clock),
            Outcome(floor.Inner(), actions), at, sent);
    }
  }

  /** The loops that switch, or clear without broadcasting, send no silence. */
  lemma QuietLoops(k: R.Profile, s: R.RewriteState, actions: seq<FloorAction>, at: Instant)
    ensures SilenceOf(k, s, Grants(actions), at) == []
    ensures SilenceOf(k, s, RevokesAndGrants(actions), at) == []
    ensures SilenceOf(k, s, Releases(actions, false), at) == []
  {
    ClearedAs(actions, false);
    Quiet(k, s, Grants(actions), at);
    Quiet(k, s, RevokesAndGrants(actions), at);
    Quiet(k, s, Releases(actions, false), at);
  }

  lemma {:induction false} Quiet(k: R.Profile, s: R.RewriteState, moves: seq<Move>, at: Instant)
    requires forall i :: 0 <= i < |moves| ==> moves[i] != Cleared(true)
    ensures SilenceOf(k, s, moves, at) == []
  {
    if moves != [] {
      Quiet(k, s, moves[..|moves| - 1], at);
    }
  }

  // ---------------------------------------------------------------- what reaches the subscribers

  const VP8_PT: u8 := 96
  const H264_PT: u8 := 102

  function PayloadType(p: R.Packet): u8 {
    if |p| < 12 then 0 else p[1] % 0x80
  }

  /** The gate in front of the fan-out: only the floor holder's packets pass, rewritten by the rewriter
      for their kind; what the rewriter skips passes unchanged. */
  function PrepareFanout(v: RoomView, audio: (R.Profile, R.RewriteState), video: (R.Profile, R.RewriteState),
                         p: R.Packet, sender: UserId, isKeyframe: bool, now: Instant): Option<R.Packet>
  {
    if Speaker(v.floor) != Some(sender) then None
    else
      var pt := PayloadType(p);
      if pt != R.OPUS_PT && pt != VP8_PT && pt != H264_PT then Some(p)
      else
        var ((k, s), key) := if pt == R.OPUS_PT then (audio, false) else (video, isKeyframe);
        match R.Verdict(s, p, sender, key)
        case Ok => Some(R.Rewritten(k, s, p, sender, key, now))
        case PendingKeyframe => None
        case Skip => Some(p)
  }

  lemma RewrittenCarries(k: R.Profile, s: R.RewriteState, p: R.Packet, sender: UserId, key: bool, now: Instant)
    requires R.Verdict(s, p, sender, key).Ok?
    ensures var r := R.Rewritten(k, s, p, sender, key, now);
            |r| == |p| && R.SsrcOf(r) == k.virtualSsrc && r[12..] == p[12..]
  {
    var b := R.Rebase(k, s, p, now);
    R.PatchFields(p, R.VirtualSeq(b, R.SeqOf(p)), R.VirtualTs(b, R.TsOf(p)), k.virtualSsrc,
                  s.awaitingFirstPacket && !k.requireKeyframe);
  }

  /** After any run of handlers, the floor holder's media and no other passes, unless the rewriter waits for a keyframe;
      it goes out rewritten, under the virtual SSRC, exactly when the last floor movement was not a leave with handover,
      and as it came otherwise. */
  lemma FanoutFollowsAgreement(cfg: FloorConfig, cs: seq<Call>,
                               audio: (R.Profile, R.RewriteState), video: (R.Profile, R.RewriteState),
                               p: R.Packet, sender: UserId, isKeyframe: bool, now: Instant)
    requires HandleAll(cfg, cs).audio == audio.1.speaker && HandleAll(cfg, cs).video == video.1.speaker
    requires PayloadType(p) in {R.OPUS_PT, VP8_PT, H264_PT}
    ensures var v := HandleAll(cfg, cs);
            var out := PrepareFanout(v, audio, video, p, sender, isKeyframe, now);
            var (k, s) := if PayloadType(p) == R.OPUS_PT then audio else video;
            var key := PayloadType(p) != R.OPUS_PT && isKeyframe;
            && (out.Some? <==>
                  Speaker(v.floor) == Some(sender) && !(LastMoveClean(cfg, cs) && s.pendingKeyframe && !key))
            && (out.Some? ==>
                  && |out.value| == |p| && out.value[12..] == p[12..]
                  && R.SsrcOf(out.value) == if LastMoveClean(cfg, cs) then k.virtualSsrc else R.SsrcOf(p))
            && (out.Some? && LastMoveClean(cfg, cs) ==>
                  R.Verdict(s, p, sender, key).Ok? && out.value == R.Rewritten(k, s, p, sender, key, now))
            && (out.Some? && !LastMoveClean(cfg, cs) ==> out.value == p)
  {
    RewritersFollowFloor(cfg, cs);
    var isAudio := PayloadType(p) == R.OPUS_PT;
    var (k, s) := if isAudio then audio else video;
    var key := if isAudio then false else isKeyframe;
    if R.Verdict(s, p, sender, key).Ok? {
      RewrittenCarries(k, s, p, sender, key, now);
    }
  }
}
