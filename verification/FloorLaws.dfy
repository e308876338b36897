/** What each floor operation does, said without reference to how: who speaks next, who waits in which order, and what
    is announced. */
module FloorLaws {
  import opened Words
  import opened Floor
  import opened FloorRuns

  // ---------------------------------------------------------------- leaving the queue

  /** The entries of everybody but `u`, in their order. */
  function Others(q: seq<QueueEntry>, u: UserId): seq<QueueEntry> {
    if q == [] then []
    else Others(q[..|q| - 1], u) + if q[|q| - 1].userId != u then [q[|q| - 1]] else []
  }

  lemma {:induction false} OthersAppend(a: seq<QueueEntry>, b: seq<QueueEntry>, u: UserId)
    ensures Others(a + b, u) == Others(a, u) + Others(b, u)
    decreases b
  {
    if b == [] {
      assert a + b == a;
    } else {
      OthersAppend(a, b[..|b| - 1], u);
      assert (a + b)[..|a + b| - 1] == a + b[..|b| - 1];
    }
  }

  lemma OthersOne(e: QueueEntry, u: UserId)
    ensures Others([e], u) == if e.userId != u then [e] else []
  {
    assert [e][..0] == [];
  }

  lemma {:induction false} WithoutIsOthers(q: seq<QueueEntry>, u: UserId)
    ensures Without(q, u) == Others(q, u)
  {
    if q != [] {
      WithoutIsOthers(q[1..], u);
      OthersAppend([q[0]], q[1..], u);
      OthersOne(q[0], u);
      assert q == [q[0]] + q[1..];
    }
  }

  lemma {:induction false} OthersOfAbsent(q: seq<QueueEntry>, u: UserId)
    requires forall i :: 0 <= i < |q| ==> q[i].userId != u
    ensures Others(q, u) == q
  {
    if q != [] {
      OthersOfAbsent(q[..|q| - 1], u);
      assert q == q[..|q| - 1] + [q[|q| - 1]];
    }
  }

  /** `r` is `q` without the entries of `u`, of which none is left, everybody else in the same order. */
  ghost predicate Removed(q: seq<QueueEntry>, u: UserId, r: seq<QueueEntry>) {
    r == Others(q, u) && !InQueue(r, u)
  }

  lemma WithoutRemoves(q: seq<QueueEntry>, u: UserId)
    ensures Removed(q, u, Without(q, u))
  {
    WithoutIsOthers(q, u);
    WithoutMembers(q, u);
    AbsentIffNotInQueue(Without(q, u), u);
  }

  // ---------------------------------------------------------------- the end of a burst

  /** The burst of the speaker in `f` ends with `a` while `q` waits: the first of `q` speaks next, from `clock` on, or
      nobody does and the speaker is remembered. */
  ghost predicate HandsOver(f: FloorInner, o: Outcome, a: FloorAction, q: seq<QueueEntry>, clock: nat)
    requires f.state.Taken?
  {
    if q == [] then
      o.actions == [a] && o.inner.state == Idle && o.inner.queue == [] && o.inner.prevSpeaker == Some(f.state.speaker)
    else
      && o.actions == [a, Granted(q[0].userId, q[0].priority, DEFAULT_DURATION_S)]
      && o.inner.state == Taken(q[0].userId, q[0].priority, clock, clock) && o.inner.queue == q[1..]
  }

  /** The speaker's release ends the burst, whoever waits or not; anybody else's release only takes them out of the
      queue; with nobody speaking it is acknowledged and changes nothing. */
  lemma ReleaseLaw(f: FloorInner, user: UserId, clock: nat)
    ensures var o := OnRelease(f, user, clock);
            if Speaker(f) == Some(user) then HandsOver(f, o, Released(user), f.queue, clock)
            else if f.state.Taken? then
              && o.actions == [] && o.inner.state == f.state && o.inner.prevSpeaker == f.prevSpeaker
              && Removed(f.queue, user, o.inner.queue)
            else o.actions == [Released(user)] && o.inner == f
  {
    WithoutRemoves(f.queue, user);
  }

  /** Cancelling takes the user out of the queue and touches nothing else. */
  lemma CancelLaw(f: FloorInner, user: UserId)
    ensures var o := OnCancel(f, user);
            && o.actions == [] && o.inner.state == f.state && o.inner.prevSpeaker == f.prevSpeaker
            && Removed(f.queue, user, o.inner.queue)
  {
    WithoutRemoves(f.queue, user);
  }

  /** A leave takes the user out of the queue, and if it spoke, hands over to the first of the others. */
  lemma LeaveLaw(f: FloorInner, user: UserId, clock: nat) returns (rest: seq<QueueEntry>)
    ensures Removed(f.queue, user, rest)
    ensures var o := OnLeave(f, user, clock);
            if Speaker(f) == Some(user) then HandsOver(f, o, Released(user), rest, clock)
            else o == Outcome(f.(queue := rest), [])
  {
    rest := Without(f.queue, user);
    WithoutRemoves(f.queue, user);
  }

  /** The timer revokes a burst longer than the limit, or else one without a ping for too long, and hands over;
      otherwise it does nothing. */
  lemma TimerLaw(cfg: FloorConfig, f: FloorInner, now: nat, clock: nat)
    ensures var o := OnTimer(cfg, f, now, clock);
            if f.state.Taken? && now > f.state.burstStart + cfg.maxBurstMs then
              HandsOver(f, o, Revoked(f.state.speaker, "max burst exceeded"), f.queue, clock)
            else if f.state.Taken? && now > f.state.lastPing + cfg.pingTimeoutMs then
              HandsOver(f, o, Revoked(f.state.speaker, "participant lost"), f.queue, clock)
            else o == Outcome(f, [])
  {
  }

  /** A ping is accepted from the speaker alone, and moves nothing but the time of the last ping. */
  lemma PingLaw(f: FloorInner, user: UserId, now: nat)
    ensures var o := OnPing(f, user, now);
            && |o.actions| == 1 && (o.actions[0] == PingOk <==> Speaker(f) == Some(user))
            && (o.actions[0] == PingOk || (o.actions[0] == PingDenied && o.inner == f))
            && o.inner.queue == f.queue && o.inner.prevSpeaker == f.prevSpeaker && Speaker(o.inner) == Speaker(f)
            && (Speaker(f) == Some(user) ==>
                  o.inner.state.lastPing == now && o.inner.state.burstStart == f.state.burstStart
                  && o.inner.state.speakerPriority == f.state.speakerPriority)
  {
  }

  // ---------------------------------------------------------------- requests

  /** The user takes the floor: it is free, or the request outranks the speaker. */
  predicate TakesFloor(cfg: FloorConfig, f: FloorInner, user: UserId, priority: u8) {
    f.state.Taken? ==>
      f.state.speaker != user && cfg.preemptionEnabled && priority > f.state.speakerPriority
  }

  /** There is no place for the user: no queue at all, or a full one without the user. */
  predicate NoPlace(cfg: FloorConfig, f: FloorInner, user: UserId) {
    !cfg.queuingEnabled || (!InQueue(f.queue, user) && |f.queue| >= cfg.maxQueueSize)
  }

  /** A new entry joins: it and nothing else is added, in sorted order, and the others keep theirs. */
  ghost predicate JoinsQueue(q: seq<QueueEntry>, e: QueueEntry, r: seq<QueueEntry>) {
    e in r && |r| == |q| + 1 && Sorted(r) && Others(r, e.userId) == q
  }

  lemma EnqueuedJoins(q: seq<QueueEntry>, e: QueueEntry)
    requires Sorted(q) && !InQueue(q, e.userId)
    ensures JoinsQueue(q, e, StableSort(q + [e]))
  {
    var i := Enqueue(q, e);
    InsertedJoins(q, e, i, StableSort(q + [e]));
  }

  lemma InsertedJoins(q: seq<QueueEntry>, e: QueueEntry, i: nat, r: seq<QueueEntry>)
    requires !InQueue(q, e.userId) && i <= |q| && r == q[..i] + [e] + q[i..]
    ensures e in r && Others(r, e.userId) == q
  {
    assert r[i] == e;
    OthersAppend(q[..i] + [e], q[i..], e.userId);
    OthersAppend(q[..i], [e], e.userId);
    OthersOne(e, e.userId);
    OthersOfAbsent(q[..i], e.userId);
    OthersOfAbsent(q[i..], e.userId);
    assert q == q[..i] + q[i..];
  }

  /** Exactly when a request is granted, acknowledged, denied or queued, and what it then changes. */
  lemma RequestLaw(cfg: FloorConfig, f: FloorInner, user: UserId, priority: u8, now: nat)
    requires Inv(cfg, f)
    ensures var o := OnRequest(cfg, f, user, priority, now);
            if TakesFloor(cfg, f, user, priority) then
              && o.inner.state == Taken(user, priority, now, now) && o.inner.queue == f.queue
              && o.inner.prevSpeaker == Speaker(f)
              && o.actions == (if f.state.Taken? then [Revoked(f.state.speaker, "preempted")] else [])
                              + [Granted(user, priority, DEFAULT_DURATION_S)]
            else if f.state.speaker == user then
              o.inner == f && o.actions == [Granted(user, f.state.speakerPriority, DEFAULT_DURATION_S)]
            else if NoPlace(cfg, f, user) then
              && o.inner == f
              && o.actions == [Denied(if cfg.queuingEnabled then "queue full" else "channel busy", f.state.speaker)]
            else
              && o.inner.state == f.state && o.inner.prevSpeaker == f.prevSpeaker
              && (if InQueue(f.queue, user) then o.inner.queue == f.queue
                  else JoinsQueue(f.queue, QueueEntry(user, priority, now), o.inner.queue))
              && |o.actions| == 1 && o.actions[0].Queued? && o.actions[0].priority == priority
  {
    if !InQueue(f.queue, user) {
      EnqueuedJoins(f.queue, QueueEntry(user, priority, now));
    }
  }
}
