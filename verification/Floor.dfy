/** Floor control of a push-to-talk room: one speaker, a priority queue of waiters,
    preemption, two timers and automatic grant of the next waiter. */
module Floor {
  import opened Words

  const DEFAULT_DURATION_S: u16 := 30
  const DEFAULT_PRIORITY: u8 := 0

  datatype FloorState =
    | Idle
    | Taken(speaker: UserId, speakerPriority: u8, burstStart: nat, lastPing: nat)

  datatype FloorAction =
    | Granted(grantee: UserId, grantPriority: u8, durationS: u16)
    | Denied(reason: string, currentSpeaker: UserId)
    | Queued(userId: UserId, position: u8, priority: u8, queueSize: u16)
    | Released(released: UserId)
    | Revoked(revoked: UserId, cause: string)
    | PingOk
    | PingDenied

  datatype FloorConfig = FloorConfig(
    queuingEnabled: bool, maxQueueSize: nat, preemptionEnabled: bool, maxBurstMs: nat, pingTimeoutMs: nat)

  datatype QueueEntry = QueueEntry(userId: UserId, priority: u8, enqueuedAt: nat)

  /** The state behind the controller's mutex. */
  datatype FloorInner = FloorInner(state: FloorState, queue: seq<QueueEntry>, prevSpeaker: Option<UserId>)

  datatype Outcome = Outcome(inner: FloorInner, actions: seq<FloorAction>)

  const INITIAL := FloorInner(Idle, [], None)

  function Speaker(f: FloorInner): Option<UserId> {
    if f.state.Idle? then None else Some(f.state.speaker)
  }

  // ---------------------------------------------------------------- the queue

  /** Queue order: priority descending, then enqueue time ascending. */
  predicate Precedes(a: QueueEntry, b: QueueEntry) {
    a.priority > b.priority || (a.priority == b.priority && a.enqueuedAt <= b.enqueuedAt)
  }

  ghost predicate Sorted(q: seq<QueueEntry>) {
    forall i, j :: 0 <= i < j < |q| ==> Precedes(q[i], q[j])
  }

  ghost predicate NoDuplicates(q: seq<QueueEntry>) {
    forall i, j :: 0 <= i < j < |q| ==> q[i].userId != q[j].userId
  }

  /** Puts `e` behind the last entry that may stay in front of it. */
  function Insert(q: seq<QueueEntry>, e: QueueEntry): (r: seq<QueueEntry>)
    ensures |r| == |q| + 1
  {
    if q == [] || Precedes(q[|q| - 1], e) then q + [e]
    else Insert(q[..|q| - 1], e) + [q[|q| - 1]]
  }

  /** `Vec::sort_by` with the queue order (a stable sort). */
  function StableSort(q: seq<QueueEntry>): (r: seq<QueueEntry>)
    ensures |r| == |q|
  {
    if q == [] then [] else Insert(StableSort(q[..|q| - 1]), q[|q| - 1])
  }

  /** The index of `u`'s first entry, |q| when there is none. */
  function Position(q: seq<QueueEntry>, u: UserId): (k: nat)
    ensures k <= |q|
    ensures k < |q| ==> q[k].userId == u
    ensures forall i :: 0 <= i < k ==> q[i].userId != u
  {
    if q == [] || q[0].userId == u then 0 else 1 + Position(q[1..], u)
  }

  predicate InQueue(q: seq<QueueEntry>, u: UserId) {
    Position(q, u) < |q|
  }

  /** `retain(|e| e.user_id != u)`. */
  function Without(q: seq<QueueEntry>, u: UserId): (r: seq<QueueEntry>)
    ensures |r| <= |q|
  {
    if q == [] then []
    else if q[0].userId == u then Without(q[1..], u)
    else [q[0]] + Without(q[1..], u)
  }

  // ---------------------------------------------------------------- transitions

  /** Grants the head of the queue; called with an idle floor. `clock` is the controller's own clock read. */
  function GrantNext(f: FloorInner, clock: nat): Outcome {
    if f.queue == [] then Outcome(f, [])
    else
      var next := f.queue[0];
      Outcome(FloorInner(Taken(next.userId, next.priority, clock, clock), f.queue[1..], None),
              [Granted(next.userId, next.priority, DEFAULT_DURATION_S)])
  }

  /** The speaker's burst ends with `action`; the next waiter, if any, takes over. */
  function AfterBurst(f: FloorInner, action: FloorAction, clock: nat): Outcome
    requires f.state.Taken?
  {
    var next := GrantNext(f.(state := Idle, prevSpeaker := Some(f.state.speaker)), clock);
    Outcome(next.inner, [action] + next.actions)
  }

  function Grant(f: FloorInner, user: UserId, priority: u8, now: nat): FloorInner {
    f.(state := Taken(user, priority, now, now))
  }

  function OnRequest(cfg: FloorConfig, f: FloorInner, user: UserId, priority: u8, now: nat): Outcome {
    match f.state
    case Idle =>
      Outcome(Grant(f, user, priority, now).(prevSpeaker := None), [Granted(user, priority, DEFAULT_DURATION_S)])
    case Taken(speaker, speakerPriority, _, _) =>
      if speaker == user then
        Outcome(f, [Granted(user, speakerPriority, DEFAULT_DURATION_S)])
      else if cfg.preemptionEnabled && priority > speakerPriority then
        Outcome(Grant(f, user, priority, now).(prevSpeaker := Some(speaker)),
                [Revoked(speaker, "preempted"), Granted(user, priority, DEFAULT_DURATION_S)])
      else if !cfg.queuingEnabled then
        Outcome(f, [Denied("channel busy", speaker)])
      else if InQueue(f.queue, user) then
        Outcome(f, [QueuedAt(f.queue, user, priority)])
      else if |f.queue| >= cfg.maxQueueSize then
        Outcome(f, [Denied("queue full", speaker)])
      else
        var q := StableSort(f.queue + [QueueEntry(user, priority, now)]);
        Outcome(f.(queue := q), [QueuedAt(q, user, priority)])
  }

  /** The Queued reply: 1-based position and queue length, cast to u8 and u16. */
  function QueuedAt(q: seq<QueueEntry>, user: UserId, priority: u8): FloorAction {
    Queued(user, (Position(q, user) + 1) % 0x100, priority, Wrap16(|q|))
  }

  function OnRelease(f: FloorInner, user: UserId, clock: nat): Outcome {
    match f.state
    case Taken(speaker, _, _, _) =>
      if speaker == user then AfterBurst(f, Released(user), clock)
      else Outcome(f.(queue := Without(f.queue, user)), [])
    case Idle => Outcome(f, [Released(user)])
  }

  function OnPing(f: FloorInner, user: UserId, now: nat): Outcome {
    if f.state.Taken? && f.state.speaker == user then
      Outcome(f.(state := f.state.(lastPing := now)), [PingOk])
    else Outcome(f, [PingDenied])
  }

  function OnCancel(f: FloorInner, user: UserId): Outcome {
    Outcome(f.(queue := Without(f.queue, user)), [])
  }

  function OnTimer(cfg: FloorConfig, f: FloorInner, now: nat, clock: nat): Outcome {
    if f.state.Idle? then Outcome(f, [])
    else if SatSub(now, f.state.burstStart) > cfg.maxBurstMs then
      AfterBurst(f, Revoked(f.state.speaker, "max burst exceeded"), clock)
    else if SatSub(now, f.state.lastPing) > cfg.pingTimeoutMs then
      AfterBurst(f, Revoked(f.state.speaker, "participant lost"), clock)
    else Outcome(f, [])
  }

  function OnLeave(f: FloorInner, user: UserId, clock: nat): Outcome {
    var g := f.(queue := Without(f.queue, user));
    if g.state.Taken? && g.state.speaker == user then AfterBurst(g, Released(user), clock)
    else Outcome(g, [])
  }

  // ---------------------------------------------------------------- the controller

  class FloorController {
    const config: FloorConfig
    var state: FloorState
    var queue: seq<QueueEntry>
    var prevSpeaker: Option<UserId>

    function Inner(): FloorInner
      reads this
    {
      FloorInner(state, queue, prevSpeaker)
    }

    constructor (config: FloorConfig)
      ensures this.config == config && Inner() == INITIAL
    {
      this.config := config;
      state, queue, prevSpeaker := Idle, [], None;
    }

    method TryGrantNext(clock: nat) returns (grant: Option<FloorAction>)
      requires state.Idle?
      modifies this
      ensures var next := GrantNext(old(Inner()), clock);
              Inner() == next.inner &&
              next.actions == (if grant.Some? then [grant.value] else [])
    {
      if queue == [] {
        return None;
      }
      var next := queue[0];
      queue := queue[1..];
      state := Taken(next.userId, next.priority, clock, clock);
      prevSpeaker := None;
      return Some(Granted(next.userId, next.priority, DEFAULT_DURATION_S));
    }

    method EndBurst(action: FloorAction, clock: nat) returns (actions: seq<FloorAction>)
      requires state.Taken?
      modifies this
      ensures Outcome(Inner(), actions) == AfterBurst(old(Inner()), action, clock)
    {
      prevSpeaker := Some(state.speaker);
      state := Idle;
      actions := [action];
      var grant := TryGrantNext(clock);
      if grant.Some? {
        actions := actions + [grant.value];
      }
    }

    method Request(user: UserId, priority: u8, now: nat) returns (actions: seq<FloorAction>)
      modifies this
      ensures Outcome(Inner(), actions) == OnRequest(config, old(Inner()), user, priority, now)
    {
      match state
      case Idle =>
        state := Taken(user, priority, now, now);
        prevSpeaker := None;
        actions := [Granted(user, priority, DEFAULT_DURATION_S)];
      case Taken(speaker, speakerPriority, _, _) =>
        if speaker == user {
          return [Granted(user, speakerPriority, DEFAULT_DURATION_S)];
        }
        if config.preemptionEnabled && priority > speakerPriority {
          prevSpeaker := Some(speaker);
          state := Taken(user, priority, now, now);
          return [Revoked(speaker, "preempted"), Granted(user, priority, DEFAULT_DURATION_S)];
        }
        if config.queuingEnabled {
          if InQueue(queue, user) {
            return [Queued(user, (Position(queue, user) + 1) % 0x100, priority, Wrap16(|queue|))];
          }
          if |queue| >= config.maxQueueSize {
            return [Denied("queue full", speaker)];
          }
          queue := queue + [QueueEntry(user, priority, now)];
          queue := StableSort(queue);
          var pos := Position(queue, user);
          actions := [Queued(user, (pos + 1) % 0x100, priority, Wrap16(|queue|))];
        } else {
          actions := [Denied("channel busy", speaker)];
        }
    }

    method Release(user: UserId, clock: nat) returns (actions: seq<FloorAction>)
      modifies this
      ensures Outcome(Inner(), actions) == OnRelease(old(Inner()), user, clock)
    {
      if state.Taken? && state.speaker == user {
        actions := EndBurst(Released(user), clock);
      } else if state.Taken? {
        queue := Without(queue, user);
        actions := [];
      } else {
        actions := [Released(user)];
      }
    }

    method Ping(user: UserId, now: nat) returns (action: FloorAction)
      modifies this
      ensures Outcome(Inner(), [action]) == OnPing(old(Inner()), user, now)
    {
      if state.Taken? && state.speaker == user {
        state := state.(lastPing := now);
        action := PingOk;
      } else {
        action := PingDenied;
      }
    }

    method CancelQueue(user: UserId) returns (removed: bool)
      modifies this
      ensures Inner() == OnCancel(old(Inner()), user).inner
      ensures removed <==> old(InQueue(queue, user))
    {
      var before := |queue|;
      WithoutShrinks(queue, user);
      queue := Without(queue, user);
      removed := |queue| < before;
    }

    method CheckTimers(now: nat, clock: nat) returns (actions: seq<FloorAction>)
      modifies this
      ensures Outcome(Inner(), actions) == OnTimer(config, old(Inner()), now, clock)
    {
      actions := [];
      if state.Taken? {
        if SatSub(now, state.burstStart) > config.maxBurstMs {
          actions := EndBurst(Revoked(state.speaker, "max burst exceeded"), clock);
          return;
        }
        if SatSub(now, state.lastPing) > config.pingTimeoutMs {
          actions := EndBurst(Revoked(state.speaker, "participant lost"), clock);
          return;
        }
      }
    }

    method OnParticipantLeave(user: UserId, clock: nat) returns (actions: seq<FloorAction>)
      modifies this
      ensures Outcome(Inner(), actions) == OnLeave(old(Inner()), user, clock)
    {
      queue := Without(queue, user);
      actions := [];
      if state.Taken? && state.speaker == user {
        actions := EndBurst(Released(user), clock);
      }
    }
  }

  /** A removal shortens the queue exactly when the user was waiting. */
  lemma {:induction false} WithoutShrinks(q: seq<QueueEntry>, u: UserId)
    ensures |Without(q, u)| < |q| <==> InQueue(q, u)
    ensures !InQueue(q, u) ==> Without(q, u) == q
  {
    if q != [] {
      WithoutShrinks(q[1..], u);
      assert q == [q[0]] + q[1..];
    }
  }
}
