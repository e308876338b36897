/** What every run of the floor state machine keeps: queue order, no priority inversion,
    an action log that determines the speaker, and a bound on how long a waiter waits. */
module FloorRuns {
  import opened Words
  import opened Floor

  // ---------------------------------------------------------------- the queue sort

  predicate SameKey(a: QueueEntry, b: QueueEntry) {
    a.priority == b.priority && a.enqueuedAt == b.enqueuedAt
  }

  /** The subsequence of entries that tie with `key`. */
  function Ties(q: seq<QueueEntry>, key: QueueEntry): seq<QueueEntry> {
    if q == [] then []
    else Ties(q[..|q| - 1], key) + (if SameKey(q[|q| - 1], key) then [q[|q| - 1]] else [])
  }

  /** Where an insertion lands: behind everything that may stay in front, before everything that may not. */
  lemma {:induction false} InsertShape(q: seq<QueueEntry>, e: QueueEntry) returns (i: nat)
    ensures i <= |q| && Insert(q, e) == q[..i] + [e] + q[i..]
    ensures i > 0 ==> Precedes(q[i - 1], e)
    ensures forall j :: i <= j < |q| ==> !Precedes(q[j], e)
  {
    if q == [] || Precedes(q[|q| - 1], e) {
      i := |q|;
    } else {
      i := InsertShape(q[..|q| - 1], e);
      assert q == q[..|q| - 1] + [q[|q| - 1]];
    }
  }

  lemma InsertSorted(q: seq<QueueEntry>, e: QueueEntry)
    requires Sorted(q)
    ensures Sorted(Insert(q, e))
  {
    var i := InsertShape(q, e);
    var r := Insert(q, e);
    forall a, b | 0 <= a < b < |r|
      ensures Precedes(r[a], r[b])
    {
      var x, y := if a < i then a else a - 1, if b < i then b else b - 1;
      if a != i && b != i {
        assert r[a] == q[x] && r[b] == q[y];
      }
    }
  }

  lemma {:induction false} InsertMultiset(q: seq<QueueEntry>, e: QueueEntry)
    ensures multiset(Insert(q, e)) == multiset(q) + multiset{e}
  {
    if q != [] && !Precedes(q[|q| - 1], e) {
      var init, z := q[..|q| - 1], q[|q| - 1];
      InsertMultiset(init, e);
      assert q == init + [z];
      assert multiset(Insert(init, e) + [z]) == multiset(Insert(init, e)) + multiset{z};
    }
  }

  lemma {:induction false} InsertTies(q: seq<QueueEntry>, e: QueueEntry, key: QueueEntry)
    ensures Ties(Insert(q, e), key) == Ties(q + [e], key)
  {
    assert (q + [e])[..|q|] == q;
    if q != [] && !Precedes(q[|q| - 1], e) {
      var init, z := q[..|q| - 1], q[|q| - 1];
      InsertTies(init, e, key);
      assert Insert(q, e)[..|q|] == Insert(init, e);
      assert (init + [e])[..|init|] == init;
    }
  }

  /** StableSort sorts, keeps exactly the given entries, and keeps ties in arrival order. */
  lemma {:induction false} StableSortCorrect(q: seq<QueueEntry>, key: QueueEntry)
    ensures Sorted(StableSort(q))
    ensures multiset(StableSort(q)) == multiset(q)
    ensures Ties(StableSort(q), key) == Ties(q, key)
  {
    if q != [] {
      var init, z := q[..|q| - 1], q[|q| - 1];
      assert q == init + [z];
      StableSortCorrect(init, key);
      var s := StableSort(init);
      InsertSorted(s, z);
      InsertMultiset(s, z);
      InsertTies(s, z, key);
      assert (s + [z])[..|s|] == s;
    }
  }

  lemma {:induction false} SortOfSorted(q: seq<QueueEntry>)
    requires Sorted(q)
    ensures StableSort(q) == q
  {
    if q != [] {
      SortOfSorted(q[..|q| - 1]);
      assert q == q[..|q| - 1] + [q[|q| - 1]];
    }
  }

  /** Enqueueing into a sorted queue: one insertion, everything in front of it keeps its place. */
  lemma Enqueue(q: seq<QueueEntry>, e: QueueEntry) returns (i: nat)
    requires Sorted(q)
    ensures var r := StableSort(q + [e]);
            && i <= |q| && r == q[..i] + [e] + q[i..] && Sorted(r)
            && (forall j :: 0 <= j < |q| && Precedes(q[j], e) ==> j < i)
  {
    assert (q + [e])[..|q|] == q;
    SortOfSorted(q);
    i := InsertShape(q, e);
    InsertSorted(q, e);
  }

  lemma InsertedMembers(q: seq<QueueEntry>, e: QueueEntry, i: nat, r: seq<QueueEntry>)
    requires i <= |q| && r == q[..i] + [e] + q[i..]
    ensures forall x :: x in r ==> x == e || x in q
  {
  }

  lemma InsertedUnique(q: seq<QueueEntry>, e: QueueEntry, i: nat, r: seq<QueueEntry>)
    requires NoDuplicates(q) && !InQueue(q, e.userId)
    requires i <= |q| && r == q[..i] + [e] + q[i..]
    ensures NoDuplicates(r)
    ensures forall x :: x in r ==> x == e || x in q
  {
    forall a, b | 0 <= a < b < |r|
      ensures r[a].userId != r[b].userId
    {
      if a != i {
        assert r[a] == q[if a < i then a else a - 1];
      }
      if b != i {
        assert r[b] == q[if b < i then b else b - 1];
      }
    }
  }

  lemma {:induction false} WithoutMembers(q: seq<QueueEntry>, u: UserId)
    ensures forall e :: e in Without(q, u) ==> e in q && e.userId != u
  {
    if q != [] {
      WithoutMembers(q[1..], u);
      assert q == [q[0]] + q[1..];
    }
  }

  /** Removal keeps the order and the uniqueness of the queue. */
  lemma {:induction false} WithoutKeeps(q: seq<QueueEntry>, u: UserId)
    requires Sorted(q) && NoDuplicates(q)
    ensures Sorted(Without(q, u)) && NoDuplicates(Without(q, u))
  {
    if q != [] {
      var r := Without(q[1..], u);
      WithoutKeeps(q[1..], u);
      WithoutMembers(q[1..], u);
      forall i | 0 <= i < |r|
        ensures Precedes(q[0], r[i]) && q[0].userId != r[i].userId
      {
        InTail(q, r[i]);
      }
    }
  }

  lemma InTail(q: seq<QueueEntry>, e: QueueEntry)
    requires Sorted(q) && NoDuplicates(q) && q != [] && e in q[1..]
    ensures Precedes(q[0], e) && q[0].userId != e.userId
  {
    var j :| 0 <= j < |q[1..]| && q[1..][j] == e;
    assert q[j + 1] == e;
  }

  /** Removing one user never moves another one back. */
  lemma {:induction false} WithoutAdvances(q: seq<QueueEntry>, u: UserId, v: UserId)
    requires v != u && InQueue(q, v)
    ensures var k, k' := Position(q, v), Position(Without(q, u), v);
            k' <= k && k' < |Without(q, u)| && Without(q, u)[k'] == q[k]
  {
    var t, r := q[1..], Without(q, u);
    if q[0].userId == v {
      assert r[0] == q[0];
    } else {
      WithoutAdvances(t, u, v);
      assert Position(q, v) == 1 + Position(t, v);
      if q[0].userId != u {
        assert r[0].userId != v && r[1..] == Without(t, u);
        assert Position(r, v) == 1 + Position(r[1..], v);
      }
    }
  }

  // ---------------------------------------------------------------- runs

  /** One call on the controller, with the time it is given and, where the call may grant the
      next waiter, the clock the controller reads itself. */
  datatype Event =
    | Request(user: UserId, priority: u8, now: nat)
    | Release(user: UserId, clock: nat)
    | Ping(user: UserId, now: nat)
    | Cancel(user: UserId, now: nat)
    | Leave(user: UserId, clock: nat)
    | Tick(now: nat, clock: nat)

  function Step(cfg: FloorConfig, f: FloorInner, e: Event): Outcome {
    match e
    case Request(u, p, now) => OnRequest(cfg, f, u, p, now)
    case Release(u, clock) => OnRelease(f, u, clock)
    case Ping(u, now) => OnPing(f, u, now)
    case Cancel(u, _) => OnCancel(f, u)
    case Leave(u, clock) => OnLeave(f, u, clock)
    case Tick(now, clock) => OnTimer(cfg, f, now, clock)
  }

  /** The state after a run, and every action emitted on the way. */
  function Run(cfg: FloorConfig, f: FloorInner, es: seq<Event>): Outcome {
    if es == [] then Outcome(f, [])
    else
      var before := Run(cfg, f, es[..|es| - 1]);
      var last := Step(cfg, before.inner, es[|es| - 1]);
      Outcome(last.inner, before.actions + last.actions)
  }

  // ---------------------------------------------------------------- no priority inversion

  ghost predicate Inv(cfg: FloorConfig, f: FloorInner) {
    && Sorted(f.queue)
    && NoDuplicates(f.queue)
    && |f.queue| <= cfg.maxQueueSize
    && (f.state.Idle? ==> f.queue == [])
    && (f.state.Taken? && cfg.preemptionEnabled ==>
          forall e :: e in f.queue ==> e.priority <= f.state.speakerPriority)
  }

  lemma GrantNextKeepsInv(cfg: FloorConfig, f: FloorInner, clock: nat)
    requires f.state.Idle? && Sorted(f.queue) && NoDuplicates(f.queue) && |f.queue| <= cfg.maxQueueSize
    ensures Inv(cfg, GrantNext(f, clock).inner)
  {
    if f.queue != [] {
      forall e | e in f.queue[1..]
        ensures e.priority <= f.queue[0].priority
      {
        InTail(f.queue, e);
      }
    }
  }

  lemma RequestKeepsInv(cfg: FloorConfig, f: FloorInner, user: UserId, priority: u8, now: nat)
    requires Inv(cfg, f)
    ensures Inv(cfg, OnRequest(cfg, f, user, priority, now).inner)
  {
    if f.state.Taken? && !InQueue(f.queue, user) {
      var e := QueueEntry(user, priority, now);
      var i := Enqueue(f.queue, e);
      InsertedUnique(f.queue, e, i, StableSort(f.queue + [e]));
    }
  }

  lemma StepKeepsInv(cfg: FloorConfig, f: FloorInner, e: Event)
    requires Inv(cfg, f)
    ensures Inv(cfg, Step(cfg, f, e).inner)
  {
    var idle := if f.state.Taken? then f.(state := Idle, prevSpeaker := Some(f.state.speaker)) else f;
    if e.Cancel? || e.Release? || e.Leave? {
      WithoutKeeps(f.queue, e.user);
      WithoutMembers(f.queue, e.user);
    }
    match e
    case Request(u, p, now) => RequestKeepsInv(cfg, f, u, p, now);
    case Release(u, clock) => GrantNextKeepsInv(cfg, idle, clock);
    case Leave(u, clock) => GrantNextKeepsInv(cfg, idle.(queue := Without(f.queue, u)), clock);
    case Tick(_, clock) => GrantNextKeepsInv(cfg, idle, clock);
    case _ =>
  }

  /** In every reachable state the queue is sorted, duplicate-free and within its limit, an idle
      floor has no waiters, and with preemption no waiter outranks the speaker. */
  lemma {:induction false} NoPriorityInversion(cfg: FloorConfig, es: seq<Event>)
    ensures Inv(cfg, Run(cfg, INITIAL, es).inner)
  {
    if es != [] {
      NoPriorityInversion(cfg, es[..|es| - 1]);
      StepKeepsInv(cfg, Run(cfg, INITIAL, es[..|es| - 1]).inner, es[|es| - 1]);
    }
  }

  lemma EnqueuedWaits(q: seq<QueueEntry>, e: QueueEntry)
    requires Sorted(q)
    ensures |StableSort(q + [e])| == |q| + 1 && InQueue(StableSort(q + [e]), e.userId)
  {
    var i := Enqueue(q, e);
    var r := StableSort(q + [e]);
    assert r[i] == e;
  }

  /** `a`, with the state going from `f` to `g`, is an honest answer to a request: a denial leaves everything as it
      was; a grant makes the user the speaker; otherwise the speaker stays and the user waits, at the place reported
      as long as that fits a byte. */
  ghost predicate Answers(f: FloorInner, g: FloorInner, a: FloorAction, user: UserId) {
    match a
    case Denied(_, speaker) => g == f && Speaker(f) == Some(speaker) && speaker != user
    case Granted(grantee, _, _) => grantee == user && Speaker(g) == Some(user)
    case Queued(waiter, place, _, size) =>
      && waiter == user && Speaker(g) == Speaker(f) && InQueue(g.queue, user)
      && (|g.queue| < 0x100 ==> 1 <= place <= |g.queue| == size && g.queue[place - 1].userId == user)
    case _ => false
  }

  lemma QueuedAnswers(f: FloorInner, q: seq<QueueEntry>, user: UserId, priority: u8)
    requires InQueue(q, user)
    ensures Answers(f, f.(queue := q), QueuedAt(q, user, priority), user)
  {
    var k := Position(q, user);
    assert q[k].userId == user;
  }

  /** The last action answers the request, honestly. */
  lemma RequestAnswered(cfg: FloorConfig, f: FloorInner, user: UserId, priority: u8, now: nat)
    requires Inv(cfg, f)
    ensures var o := OnRequest(cfg, f, user, priority, now);
            o.actions != [] && Answers(f, o.inner, o.actions[|o.actions| - 1], user)
  {
    if InQueue(f.queue, user) {
      QueuedAnswers(f, f.queue, user, priority);
    } else {
      EnqueuedWaits(f.queue, QueueEntry(user, priority, now));
      QueuedAnswers(f, StableSort(f.queue + [QueueEntry(user, priority, now)]), user, priority);
    }
  }

  // ---------------------------------------------------------------- the speaker in the queue

  predicate SpeakerWaits(f: FloorInner) {
    f.state.Taken? && InQueue(f.queue, f.state.speaker)
  }

  /** A waiter asks again with a priority above the speaker's. */
  predicate PreemptsFromQueue(cfg: FloorConfig, f: FloorInner, e: Event) {
    && e.Request? && f.state.Taken? && e.user != f.state.speaker
    && cfg.preemptionEnabled && e.priority > f.state.speakerPriority && InQueue(f.queue, e.user)
  }

  /** `u` has no entry in `q`. */
  ghost predicate Absent(q: seq<QueueEntry>, u: UserId) {
    forall e :: e in q ==> e.userId != u
  }

  lemma AbsentIffNotInQueue(q: seq<QueueEntry>, u: UserId)
    ensures Absent(q, u) <==> !InQueue(q, u)
  {
    if InQueue(q, u) {
      assert q[Position(q, u)] in q;
    }
  }

  lemma GrantedNoLongerWaits(f: FloorInner, a: FloorAction, clock: nat)
    requires f.state.Taken? && Sorted(f.queue) && NoDuplicates(f.queue)
    ensures !SpeakerWaits(AfterBurst(f, a, clock).inner)
  {
    var q := f.queue;
    if q != [] {
      forall e | e in q[1..]
        ensures e.userId != q[0].userId
      {
        InTail(q, e);
      }
      AbsentIffNotInQueue(q[1..], q[0].userId);
    }
  }

  lemma RequesterWaits(cfg: FloorConfig, f: FloorInner, user: UserId, priority: u8, now: nat)
    requires Inv(cfg, f) && f.state.Taken? && !SpeakerWaits(f) && user != f.state.speaker && !InQueue(f.queue, user)
    ensures !InQueue(StableSort(f.queue + [QueueEntry(user, priority, now)]), f.state.speaker)
  {
    var entry := QueueEntry(user, priority, now);
    var i := Enqueue(f.queue, entry);
    var r := StableSort(f.queue + [entry]);
    InsertedUnique(f.queue, entry, i, r);
    AbsentIffNotInQueue(f.queue, f.state.speaker);
    AbsentIffNotInQueue(r, f.state.speaker);
  }

  lemma RemovalKeepsSpeakerOut(f: FloorInner, user: UserId)
    requires !SpeakerWaits(f)
    ensures !SpeakerWaits(f.(queue := Without(f.queue, user)))
  {
    WithoutMembers(f.queue, user);
    if f.state.Taken? {
      AbsentIffNotInQueue(f.queue, f.state.speaker);
      AbsentIffNotInQueue(Without(f.queue, user), f.state.speaker);
    }
  }

  lemma RequestWaitsExactly(cfg: FloorConfig, f: FloorInner, user: UserId, priority: u8, now: nat)
    requires Inv(cfg, f) && !SpeakerWaits(f)
    ensures SpeakerWaits(OnRequest(cfg, f, user, priority, now).inner) <==>
            PreemptsFromQueue(cfg, f, Request(user, priority, now))
  {
    if f.state.Taken? && user != f.state.speaker && !InQueue(f.queue, user) {
      RequesterWaits(cfg, f, user, priority, now);
    }
  }

  lemma DepartureLeavesNoSpeakerWaiting(cfg: FloorConfig, f: FloorInner, user: UserId, clock: nat)
    requires Inv(cfg, f) && !SpeakerWaits(f)
    ensures !SpeakerWaits(OnRelease(f, user, clock).inner) && !SpeakerWaits(OnLeave(f, user, clock).inner)
    ensures !SpeakerWaits(OnCancel(f, user).inner)
  {
    RemovalKeepsSpeakerOut(f, user);
    WithoutKeeps(f.queue, user);
    if f.state.Taken? {
      GrantedNoLongerWaits(f, Released(user), clock);
      GrantedNoLongerWaits(f.(queue := Without(f.queue, user)), Released(user), clock);
    }
  }

  /** The speaker also occupies a queue slot after exactly those requests: preemption leaves the entry behind. */
  lemma SpeakerWaitsExactly(cfg: FloorConfig, f: FloorInner, e: Event)
    requires Inv(cfg, f) && !SpeakerWaits(f)
    ensures SpeakerWaits(Step(cfg, f, e).inner) <==> PreemptsFromQueue(cfg, f, e)
  {
    match e
    case Request(u, p, now) => RequestWaitsExactly(cfg, f, u, p, now);
    case Ping(_, _) =>
    case Cancel(u, _) => DepartureLeavesNoSpeakerWaiting(cfg, f, u, 0);
    case Release(u, clock) => DepartureLeavesNoSpeakerWaiting(cfg, f, u, clock);
    case Leave(u, clock) => DepartureLeavesNoSpeakerWaiting(cfg, f, u, clock);
    case Tick(_, clock) =>
      if f.state.Taken? {
        GrantedNoLongerWaits(f, Revoked(f.state.speaker, "max burst exceeded"), clock);
        GrantedNoLongerWaits(f, Revoked(f.state.speaker, "participant lost"), clock);
      }
  }

  /** The claim "the speaker is never queued" fails on a three-request run. */
  lemma SpeakerCanWait(cfg: FloorConfig)
    requires cfg.preemptionEnabled && cfg.queuingEnabled && cfg.maxQueueSize >= 1
    ensures SpeakerWaits(Run(cfg, INITIAL, [Request("A", 0, 0), Request("B", 0, 1), Request("B", 5, 2)]).inner)
  {
    var es := [Request("A", 0, 0), Request("B", 0, 1), Request("B", 5, 2)];
    var f0 := Run(cfg, INITIAL, []).inner;
    assert es[..2][..1][..0] == [] && es[..2][..1] == es[..1];
    var f1 := Run(cfg, INITIAL, es[..1]).inner;
    assert f1 == FloorInner(Taken("A", 0, 0, 0), [], None);
    var b := QueueEntry("B", 0, 1);
    SortOfSorted([b]);
    assert [] + [b] == [b];
    var f2 := Run(cfg, INITIAL, es[..2]).inner;
    assert f2 == Step(cfg, f1, es[1]).inner;
    assert f2.queue == [b];
  }

  // ---------------------------------------------------------------- the action log

  /** The speaker a listener of the actions believes in: Granted sets, Released and Revoked clear. */
  function Heard(speaker: Option<UserId>, a: FloorAction): Option<UserId> {
    match a
    case Granted(u, _, _) => Some(u)
    case Released(_) => None
    case Revoked(_, _) => None
    case _ => speaker
  }

  function Replay(log: seq<FloorAction>, speaker: Option<UserId>): Option<UserId> {
    if log == [] then speaker else Heard(Replay(log[..|log| - 1], speaker), log[|log| - 1])
  }

  /** No takeover without ending the previous burst, and only the speaker's own burst is revoked. */
  predicate Fits(speaker: Option<UserId>, a: FloorAction) {
    match a
    case Granted(u, _, _) => speaker == None || speaker == Some(u)
    case Released(u) => speaker == None || speaker == Some(u)
    case Revoked(u, _) => speaker == Some(u)
    case _ => true
  }

  ghost predicate Orderly(log: seq<FloorAction>, speaker: Option<UserId>) {
    forall i :: 0 <= i < |log| ==> Fits(Replay(log[..i], speaker), log[i])
  }

  function LastGrantee(log: seq<FloorAction>): Option<UserId> {
    if log == [] then None
    else if log[|log| - 1].Granted? then Some(log[|log| - 1].grantee)
    else LastGrantee(log[..|log| - 1])
  }

  lemma {:induction false} ReplayAppend(a: seq<FloorAction>, b: seq<FloorAction>, s: Option<UserId>)
    ensures Replay(a + b, s) == Replay(b, Replay(a, s))
    ensures LastGrantee(a + b) == if LastGrantee(b).Some? then LastGrantee(b) else LastGrantee(a)
  {
    if b == [] {
      assert a + b == a;
    } else {
      ReplayAppend(a, b[..|b| - 1], s);
      assert (a + b)[..|a + b| - 1] == a + b[..|b| - 1];
    }
  }

  lemma OrderlyAppend(a: seq<FloorAction>, b: seq<FloorAction>, s: Option<UserId>)
    requires Orderly(a, s) && Orderly(b, Replay(a, s))
    ensures Orderly(a + b, s)
  {
    forall i | 0 <= i < |a + b|
      ensures Fits(Replay((a + b)[..i], s), (a + b)[i])
    {
      if i < |a| {
        assert (a + b)[..i] == a[..i];
      } else {
        assert (a + b)[..i] == a + b[..i - |a|];
        ReplayAppend(a, b[..i - |a|], s);
      }
    }
  }

  lemma ShortLog(log: seq<FloorAction>, s: Option<UserId>)
    requires 1 <= |log| <= 2
    ensures Replay(log, s) == if |log| == 1 then Heard(s, log[0]) else Heard(Heard(s, log[0]), log[1])
    ensures Orderly(log, s) <==> Fits(s, log[0]) && (|log| == 2 ==> Fits(Heard(s, log[0]), log[1]))
    ensures |log| == 1 ==> LastGrantee(log) == Heard(None, log[0])
    ensures |log| == 2 && log[1].Granted? ==> LastGrantee(log) == Some(log[1].grantee)
  {
    assert log[..0] == [] && Replay(log[..0], s) == s;
    assert log[..1][..0] == [] && log[..1] == [log[0]];
    assert Replay(log[..1], s) == Heard(s, log[0]);
    assert |log| == 1 ==> log[..1] == log;
  }

  /** What the actions of one step say about the speakers before and after it. */
  ghost predicate LogMatches(f: FloorInner, o: Outcome) {
    && Replay(o.actions, Speaker(f)) == Speaker(o.inner)
    && Orderly(o.actions, Speaker(f))
    && (LastGrantee(o.actions).Some? ==> Speaker(o.inner) == LastGrantee(o.actions))
    && (LastGrantee(o.actions).None? && o.inner.state.Taken? ==> Speaker(o.inner) == Speaker(f))
    && (o.inner.state.Idle? ==> o.inner.prevSpeaker == if f.state.Taken? then Speaker(f) else f.prevSpeaker)
  }

  lemma BurstLog(f: FloorInner, a: FloorAction, clock: nat)
    requires f.state.Taken? && (a.Released? || a.Revoked?) && Fits(Speaker(f), a)
    ensures LogMatches(f, AfterBurst(f, a, clock))
  {
    ShortLog(AfterBurst(f, a, clock).actions, Speaker(f));
  }

  lemma RequestLog(cfg: FloorConfig, f: FloorInner, user: UserId, priority: u8, now: nat)
    ensures LogMatches(f, OnRequest(cfg, f, user, priority, now))
  {
    ShortLog(OnRequest(cfg, f, user, priority, now).actions, Speaker(f));
  }

  lemma ReleaseLog(f: FloorInner, user: UserId, clock: nat)
    ensures LogMatches(f, OnRelease(f, user, clock))
  {
    if f.state.Idle? {
      ShortLog([Released(user)], None);
    } else if f.state.speaker == user {
      BurstLog(f, Released(user), clock);
    }
  }

  lemma LeaveLog(f: FloorInner, user: UserId, clock: nat)
    ensures LogMatches(f, OnLeave(f, user, clock))
  {
    if f.state.Taken? && f.state.speaker == user {
      BurstLog(f.(queue := Without(f.queue, user)), Released(user), clock);
    }
  }

  lemma TickLog(cfg: FloorConfig, f: FloorInner, now: nat, clock: nat)
    ensures LogMatches(f, OnTimer(cfg, f, now, clock))
  {
    if f.state.Taken? {
      BurstLog(f, Revoked(f.state.speaker, "max burst exceeded"), clock);
      BurstLog(f, Revoked(f.state.speaker, "participant lost"), clock);
    }
  }

  lemma StepLog(cfg: FloorConfig, f: FloorInner, e: Event)
    ensures LogMatches(f, Step(cfg, f, e))
  {
    match e
    case Request(u, p, now) => RequestLog(cfg, f, u, p, now);
    case Release(u, clock) => ReleaseLog(f, u, clock);
    case Leave(u, clock) => LeaveLog(f, u, clock);
    case Tick(now, clock) => TickLog(cfg, f, now, clock);
    case Cancel(_, _) =>
    case Ping(u, now) => ShortLog(OnPing(f, u, now).actions, Speaker(f));
  }

  /** Folding the emitted actions over any run gives the current speaker; no grant to somebody else
      appears while a burst is open; an idle floor remembers the last user ever granted. */
  lemma {:induction false} ActionLogRefinesState(cfg: FloorConfig, es: seq<Event>)
    ensures var o := Run(cfg, INITIAL, es);
            && Replay(o.actions, None) == Speaker(o.inner)
            && Orderly(o.actions, None)
            && LastGrantee(o.actions) == (if o.inner.state.Taken? then Speaker(o.inner) else o.inner.prevSpeaker)
  {
    if es != [] {
      ActionLogRefinesState(cfg, es[..|es| - 1]);
      var before := Run(cfg, INITIAL, es[..|es| - 1]);
      var last := Step(cfg, before.inner, es[|es| - 1]);
      StepLog(cfg, before.inner, es[|es| - 1]);
      ReplayAppend(before.actions, last.actions, None);
      OrderlyAppend(before.actions, last.actions, None);
    }
  }

  // ---------------------------------------------------------------- bounded wait

  function Start(e: Event): nat {
    match e
    case Release(_, clock) => clock
    case Leave(_, clock) => clock
    case _ => e.now
  }

  /** When the event is over: the controller's own clock read, where there is one. */
  function End(e: Event): nat {
    if e.Tick? then e.clock else Start(e)
  }

  /** A nondecreasing clock, and every event, the next tick included, over within `period` of the last tick. */
  ghost predicate Timely(period: nat, clock: nat, lastTick: nat, es: seq<Event>)
    decreases |es|
  {
    es != [] ==>
      && clock <= Start(es[0]) <= End(es[0]) <= lastTick + period
      && Timely(period, End(es[0]), if es[0].Tick? then es[0].now else lastTick, es[1..])
  }

  /** The waiter does not give up, and nobody asks with a higher priority. */
  predicate Patient(u: UserId, p: u8, e: Event) {
    && ((e.Release? || e.Cancel? || e.Leave?) ==> e.user != u)
    && (e.Request? ==> e.priority <= p)
  }

  /** `u` waits in `f` behind a burst the timer has not yet had to end. */
  ghost predicate Waiting(cfg: FloorConfig, f: FloorInner, clock: nat, lastTick: nat, u: UserId) {
    && Inv(cfg, f) && f.state.Taken? && InQueue(f.queue, u)
    && f.state.burstStart <= clock && lastTick <= f.state.burstStart + cfg.maxBurstMs
    && (forall e :: e in f.queue ==> e.enqueuedAt <= clock)
  }

  function Entry(f: FloorInner, u: UserId): QueueEntry
    requires InQueue(f.queue, u)
  {
    f.queue[Position(f.queue, u)]
  }

  /** The latest time at which `u` can still be waiting. */
  function Deadline(cfg: FloorConfig, period: nat, f: FloorInner, u: UserId): nat
    requires f.state.Taken? && InQueue(f.queue, u)
  {
    f.state.burstStart + (Position(f.queue, u) + 1) * (cfg.maxBurstMs + period)
  }

  predicate GrantsFloor(cfg: FloorConfig, f: FloorInner, e: Event, u: UserId, p: u8) {
    var o := Step(cfg, f, e);
    && o.inner.state == Taken(u, p, End(e), End(e))
    && |o.actions| == 2 && o.actions[1] == Granted(u, p, DEFAULT_DURATION_S)
  }

  lemma LaterIsLarger(k: nat, k': nat, w: nat)
    requires k' <= k
    ensures (k' + 1) * w <= (k + 1) * w
    ensures k' < k ==> (k' + 1) * w + w <= (k + 1) * w
  {
    assert (k + 1) * w == (k' + 1) * w + (k - k') * w;
    if k' < k {
      assert (k - k') * w == w + (k - k' - 1) * w;
    }
  }

  /** An event that leaves the speaker in place leaves its burst start in place: neither pings
      nor repeated requests extend a burst. */
  lemma BurstNotExtended(cfg: FloorConfig, f: FloorInner, e: Event)
    requires f.state.Taken?
    ensures var o := Step(cfg, f, e);
            (forall a :: a in o.actions ==> !a.Released? && !a.Revoked?) ==>
              o.inner.state.Taken? && o.inner.state.(lastPing := 0) == f.state.(lastPing := 0)
  {
    var o := Step(cfg, f, e);
    if |o.actions| > 0 {
      assert o.actions[0] in o.actions;
    }
  }

  // ---------------------------------------------------------------- heartbeat

  /** Nobody but the timer ends the burst of `u`: no release, departure or preemption. */
  predicate Undisturbed(cfg: FloorConfig, u: UserId, p: u8, e: Event) {
    && ((e.Release? || e.Leave?) ==> e.user != u)
    && (e.Request? && e.user != u && cfg.preemptionEnabled ==> e.priority <= p)
  }

  /** The time of the last ping from `u` in the events, or `since`. */
  function Heartbeat(u: UserId, since: nat, es: seq<Event>): nat {
    if es == [] then since
    else
      var last := es[|es| - 1];
      if last.Ping? && last.user == u then last.now else Heartbeat(u, since, es[..|es| - 1])
  }

  /** Every tick among the events finds the burst short enough and the heartbeat of `u` fresh. */
  ghost predicate Alive(cfg: FloorConfig, u: UserId, start: nat, since: nat, es: seq<Event>) {
    es != [] ==>
      var init, last := es[..|es| - 1], es[|es| - 1];
      && Alive(cfg, u, start, since, init)
      && (last.Tick? ==>
            last.now <= start + cfg.maxBurstMs && last.now <= Heartbeat(u, since, init) + cfg.pingTimeoutMs)
  }

  predicate Ends(a: FloorAction, u: UserId) {
    (a.Released? && a.released == u) || (a.Revoked? && a.revoked == u)
  }

  ghost predicate Ended(log: seq<FloorAction>, u: UserId) {
    exists i :: 0 <= i < |log| && Ends(log[i], u)
  }

  lemma EndedAppend(a: seq<FloorAction>, b: seq<FloorAction>, u: UserId)
    ensures Ended(a + b, u) <==> Ended(a, u) || Ended(b, u)
  {
    if Ended(b, u) {
      var i :| 0 <= i < |b| && Ends(b[i], u);
      assert (a + b)[|a| + i] == b[i];
    }
    if Ended(a, u) {
      var i :| 0 <= i < |a| && Ends(a[i], u);
      assert (a + b)[i] == a[i];
    }
  }

  lemma HeartbeatStep(cfg: FloorConfig, f: FloorInner, e: Event)
    requires f.state.Taken? && Undisturbed(cfg, f.state.speaker, f.state.speakerPriority, e)
    ensures var o, u := Step(cfg, f, e), f.state.speaker;
            if e.Tick? && (e.now > f.state.burstStart + cfg.maxBurstMs || e.now > f.state.lastPing + cfg.pingTimeoutMs)
            then Ended(o.actions, u)
            else !Ended(o.actions, u)
                 && o.inner.state == if e.Ping? && e.user == u then f.state.(lastPing := e.now) else f.state
  {
    var o := Step(cfg, f, e);
    if o.actions != [] {
      assert Ends(o.actions[0], f.state.speaker) ==> Ended(o.actions, f.state.speaker);
    }
  }

  /** The timer ends a burst exactly when it should: over any events that do not end the burst otherwise, the
      speaker is revoked iff some tick finds the burst over-long or the last ping too old; until then the speaker,
      its priority and its burst start stay, and the recorded ping is the last one sent. */
  lemma {:induction false} RevokedIffSilentOrLong(cfg: FloorConfig, f: FloorInner, es: seq<Event>)
    requires f.state.Taken?
    requires forall i :: 0 <= i < |es| ==> Undisturbed(cfg, f.state.speaker, f.state.speakerPriority, es[i])
    ensures var o, t := Run(cfg, f, es), f.state;
            if Alive(cfg, t.speaker, t.burstStart, t.lastPing, es)
            then !Ended(o.actions, t.speaker) && o.inner.state == t.(lastPing := Heartbeat(t.speaker, t.lastPing, es))
            else Ended(o.actions, t.speaker)
  {
    if es != [] {
      var init, last := es[..|es| - 1], es[|es| - 1];
      RevokedIffSilentOrLong(cfg, f, init);
      var before := Run(cfg, f, init);
      var after := Step(cfg, before.inner, last);
      EndedAppend(before.actions, after.actions, f.state.speaker);
      if Alive(cfg, f.state.speaker, f.state.burstStart, f.state.lastPing, init) {
        HeartbeatStep(cfg, before.inner, last);
      }
    }
  }

  // ---------------------------------------------------------------- waiting

  /** One more request below the waiter's priority changes nothing for the waiter. */
  lemma WaitThroughRequest(cfg: FloorConfig, f: FloorInner, clock: nat, lastTick: nat, u: UserId, e: Event)
    requires Waiting(cfg, f, clock, lastTick, u) && e.Request? && clock <= e.now
    requires Patient(u, Entry(f, u).priority, e)
    ensures var g := Step(cfg, f, e).inner;
            && Waiting(cfg, g, e.now, lastTick, u) && g.state == f.state
            && Position(g.queue, u) == Position(f.queue, u) && Entry(g, u) == Entry(f, u)
  {
    StepKeepsInv(cfg, f, e);
    var k := Position(f.queue, u);
    assert f.queue[k] in f.queue;
    if !InQueue(f.queue, e.user) {
      var entry := QueueEntry(e.user, e.priority, e.now);
      JoinsBehind(f.queue, entry, u);
    }
  }

  /** Whoever precedes a new entry keeps its place. */
  lemma JoinsBehind(q: seq<QueueEntry>, entry: QueueEntry, u: UserId)
    requires Sorted(q) && InQueue(q, u)
    requires Precedes(q[Position(q, u)], entry)
    ensures var r := StableSort(q + [entry]);
            && InQueue(r, u) && Position(r, u) == Position(q, u) && r[Position(q, u)] == q[Position(q, u)]
            && forall x :: x in r ==> x == entry || x in q
  {
    var k := Position(q, u);
    var i := Enqueue(q, entry);
    var r := StableSort(q + [entry]);
    InsertedMembers(q, entry, i, r);
    assert forall j :: 0 <= j <= k ==> r[j] == q[j];
  }

  /** `v` other than the speaker drops out of the queue. */
  lemma WaitThroughRemoval(
    cfg: FloorConfig, period: nat, f: FloorInner, clock: nat, lastTick: nat, u: UserId, v: UserId)
    requires Waiting(cfg, f, clock, lastTick, u) && v != u
    ensures var g := f.(queue := Without(f.queue, v));
            && Waiting(cfg, g, clock, lastTick, u) && Entry(g, u) == Entry(f, u)
            && Deadline(cfg, period, g, u) <= Deadline(cfg, period, f, u)
  {
    WithoutAdvances(f.queue, v, u);
    WithoutKeeps(f.queue, v);
    WithoutMembers(f.queue, v);
    LaterIsLarger(Position(f.queue, u), Position(Without(f.queue, v), u), cfg.maxBurstMs + period);
  }

  /** The burst ends at `c`: the waiter is granted, or moves up one place behind a burst starting at `c`. */
  lemma WaitThroughGrant(
    cfg: FloorConfig, period: nat, f: FloorInner, clock: nat, lastTick: nat, u: UserId, a: FloorAction, c: nat)
    requires Waiting(cfg, f, clock, lastTick, u)
    requires clock <= c <= f.state.burstStart + cfg.maxBurstMs + period
    ensures var o, p := AfterBurst(f, a, c), Entry(f, u).priority;
            || (&& o == Outcome(FloorInner(Taken(u, p, c, c), f.queue[1..], None),
                                [a, Granted(u, p, DEFAULT_DURATION_S)])
                && c <= Deadline(cfg, period, f, u))
            || (&& Waiting(cfg, o.inner, c, Min(lastTick, c), u) && Entry(o.inner, u) == Entry(f, u)
                && o.inner.state.burstStart == c
                && Deadline(cfg, period, o.inner, u) <= Deadline(cfg, period, f, u))
  {
    var k, w := Position(f.queue, u), cfg.maxBurstMs + period;
    GrantNextKeepsInv(cfg, f.(state := Idle, prevSpeaker := Some(f.state.speaker)), c);
    if k == 0 {
      LaterIsLarger(k, 0, w);
    } else {
      assert f.queue == [f.queue[0]] + f.queue[1..];
      assert Position(f.queue[1..], u) == k - 1;
      LaterIsLarger(k, k - 1, w);
    }
  }

  /** The ways `e` can treat a waiter: granted before its deadline, or still waiting with no later one. */
  ghost predicate WaitGoesOn(cfg: FloorConfig, period: nat, f: FloorInner, lastTick: nat, u: UserId, e: Event)
    requires f.state.Taken? && InQueue(f.queue, u)
  {
    var g := Step(cfg, f, e).inner;
    || (GrantsFloor(cfg, f, e, u, Entry(f, u).priority) && End(e) <= Deadline(cfg, period, f, u))
    || (&& Waiting(cfg, g, End(e), if e.Tick? then e.now else lastTick, u) && Entry(g, u) == Entry(f, u)
        && Deadline(cfg, period, g, u) <= Deadline(cfg, period, f, u))
  }

  lemma WaitThroughTick(cfg: FloorConfig, period: nat, f: FloorInner, clock: nat, lastTick: nat, u: UserId, e: Event)
    requires Waiting(cfg, f, clock, lastTick, u) && e.Tick?
    requires clock <= e.now <= e.clock <= lastTick + period
    ensures WaitGoesOn(cfg, period, f, lastTick, u, e)
  {
    if SatSub(e.now, f.state.burstStart) > cfg.maxBurstMs {
      WaitThroughGrant(cfg, period, f, clock, lastTick, u, Revoked(f.state.speaker, "max burst exceeded"), e.clock);
    } else if SatSub(e.now, f.state.lastPing) > cfg.pingTimeoutMs {
      WaitThroughGrant(cfg, period, f, clock, lastTick, u, Revoked(f.state.speaker, "participant lost"), e.clock);
    }
  }

  lemma WaitThroughDeparture(
    cfg: FloorConfig, period: nat, f: FloorInner, clock: nat, lastTick: nat, u: UserId, e: Event)
    requires Waiting(cfg, f, clock, lastTick, u) && (e.Release? || e.Leave?) && e.user != u
    requires clock <= e.clock <= lastTick + period
    ensures WaitGoesOn(cfg, period, f, lastTick, u, e)
  {
    WaitThroughRemoval(cfg, period, f, clock, lastTick, u, e.user);
    if f.state.speaker == e.user {
      var g := if e.Leave? then f.(queue := Without(f.queue, e.user)) else f;
      WaitThroughGrant(cfg, period, g, clock, lastTick, u, Released(e.user), e.clock);
    }
  }

  lemma WaitStep(cfg: FloorConfig, period: nat, f: FloorInner, clock: nat, lastTick: nat, u: UserId, e: Event)
    requires Waiting(cfg, f, clock, lastTick, u)
    requires clock <= Start(e) <= End(e) <= lastTick + period
    requires Patient(u, Entry(f, u).priority, e)
    ensures WaitGoesOn(cfg, period, f, lastTick, u, e)
  {
    match e
    case Request(_, _, _) =>
      WaitThroughRequest(cfg, f, clock, lastTick, u, e);
    case Ping(_, _) =>
    case Tick(_, _) =>
      WaitThroughTick(cfg, period, f, clock, lastTick, u, e);
    case Cancel(v, _) =>
      WaitThroughRemoval(cfg, period, f, clock, lastTick, u, v);
    case Release(_, _) =>
      WaitThroughDeparture(cfg, period, f, clock, lastTick, u, e);
    case Leave(_, _) =>
      WaitThroughDeparture(cfg, period, f, clock, lastTick, u, e);
  }

  /** `u` waits in `f`, does not give up during the timely events that follow, nobody requests above its priority, and
      the events go on past its deadline. */
  ghost predicate Due(
    cfg: FloorConfig, period: nat, f: FloorInner, clock: nat, lastTick: nat, u: UserId, es: seq<Event>)
  {
    && Waiting(cfg, f, clock, lastTick, u)
    && Timely(period, clock, lastTick, es)
    && (forall i :: 0 <= i < |es| ==> Patient(u, Entry(f, u).priority, es[i]))
    && es != [] && End(es[|es| - 1]) > Deadline(cfg, period, f, u)
  }

  /** If the first event does not grant, the same holds of the rest. */
  lemma StillDue(cfg: FloorConfig, period: nat, f: FloorInner, clock: nat, lastTick: nat, u: UserId, es: seq<Event>)
    requires Due(cfg, period, f, clock, lastTick, u, es)
    requires !(GrantsFloor(cfg, f, es[0], u, Entry(f, u).priority) && End(es[0]) <= Deadline(cfg, period, f, u))
    ensures var g, tick := Step(cfg, f, es[0]).inner, if es[0].Tick? then es[0].now else lastTick;
            && Due(cfg, period, g, End(es[0]), tick, u, es[1..])
            && Entry(g, u) == Entry(f, u) && Deadline(cfg, period, g, u) <= Deadline(cfg, period, f, u)
  {
    WaitStep(cfg, period, f, clock, lastTick, u, es[0]);
    NotYetDue(cfg, period, f, clock, lastTick, u, End(es[0]));
    assert |es| > 1 && es[|es| - 1] == es[1..][|es| - 2];
  }

  /** Every waiter is granted by its deadline: from any state in which `u` waits, a run that reaches
      past burst start + (k+1)(max burst + tick period) without `u` giving up and without a request
      above `u`'s priority grants the floor to `u`, at or before that time. */
  lemma {:induction false} BoundedWait(
    cfg: FloorConfig, period: nat, f: FloorInner, clock: nat, lastTick: nat, u: UserId, es: seq<Event>)
    returns (i: nat)
    requires Due(cfg, period, f, clock, lastTick, u, es)
    ensures i < |es| && End(es[i]) <= Deadline(cfg, period, f, u)
    ensures GrantsFloor(cfg, Run(cfg, f, es[..i]).inner, es[i], u, Entry(f, u).priority)
    decreases |es|
  {
    var e, rest := es[0], es[1..];
    if GrantsFloor(cfg, f, e, u, Entry(f, u).priority) && End(e) <= Deadline(cfg, period, f, u) {
      i := 0;
    } else {
      StillDue(cfg, period, f, clock, lastTick, u, es);
      var j := BoundedWait(cfg, period, Step(cfg, f, e).inner, End(e), if e.Tick? then e.now else lastTick, u, rest);
      i := j + 1;
      RunSplit(cfg, f, e, rest[..j]);
      assert es[..i] == [e] + rest[..j];
    }
  }

  /** A burst the timer has not yet had to end cannot outlive anybody's deadline. */
  lemma NotYetDue(cfg: FloorConfig, period: nat, f: FloorInner, clock: nat, lastTick: nat, u: UserId, t: nat)
    requires Waiting(cfg, f, clock, lastTick, u) && t <= lastTick + period
    ensures t <= Deadline(cfg, period, f, u)
  {
    LaterIsLarger(Position(f.queue, u), 0, cfg.maxBurstMs + period);
  }

  lemma {:induction false} RunSplit(cfg: FloorConfig, f: FloorInner, e: Event, es: seq<Event>)
    ensures Run(cfg, f, [e] + es).inner == Run(cfg, Step(cfg, f, e).inner, es).inner
  {
    var all := [e] + es;
    if es == [] {
      assert all[..0] == [] && all[0] == e;
      assert Run(cfg, f, all[..0]).inner == f;
    } else {
      var init := es[..|es| - 1];
      RunSplit(cfg, f, e, init);
      assert all[..|all| - 1] == [e] + init && all[|all| - 1] == es[|es| - 1];
    }
  }

  /** Times recorded in a state never lie ahead of the clock, and the timer is never overdue. */
  ghost predicate Clocked(cfg: FloorConfig, f: FloorInner, clock: nat, lastTick: nat) {
    && lastTick <= clock
    && (f.state.Taken? ==> f.state.burstStart <= clock && lastTick <= f.state.burstStart + cfg.maxBurstMs)
    && (forall e :: e in f.queue ==> e.enqueuedAt <= clock)
  }

  lemma ClockedStep(cfg: FloorConfig, f: FloorInner, clock: nat, lastTick: nat, e: Event)
    requires Inv(cfg, f) && Clocked(cfg, f, clock, lastTick) && clock <= Start(e) <= End(e)
    ensures Clocked(cfg, Step(cfg, f, e).inner, End(e), if e.Tick? then e.now else lastTick)
  {
    if e.Request? && f.state.Taken? {
      var entry := QueueEntry(e.user, e.priority, e.now);
      var i := Enqueue(f.queue, entry);
      InsertedMembers(f.queue, entry, i, StableSort(f.queue + [entry]));
    } else if e.Release? || e.Cancel? || e.Leave? {
      WithoutMembers(f.queue, e.user);
    }
  }

  /** Bounded wait over whole runs: if `u` waits after the events `before` of a timely run, the
      continuation `after` that outlasts the deadline grants `u` the floor no later than the deadline. */
  lemma {:induction false} EveryWaiterServed(
    cfg: FloorConfig, period: nat, f: FloorInner, clock: nat, lastTick: nat,
    before: seq<Event>, after: seq<Event>, u: UserId)
    returns (i: nat)
    requires Inv(cfg, f) && Clocked(cfg, f, clock, lastTick)
    requires Timely(period, clock, lastTick, before + after)
    requires var g := Run(cfg, f, before).inner;
             && InQueue(g.queue, u) && g.state.Taken?
             && (forall j :: 0 <= j < |after| ==> Patient(u, Entry(g, u).priority, after[j]))
             && after != [] && End(after[|after| - 1]) > Deadline(cfg, period, g, u)
    ensures var g := Run(cfg, f, before).inner;
            && i < |after| && End(after[i]) <= Deadline(cfg, period, g, u)
            && GrantsFloor(cfg, Run(cfg, g, after[..i]).inner, after[i], u, Entry(g, u).priority)
    decreases |before|
  {
    if before == [] {
      assert before + after == after;
      i := BoundedWait(cfg, period, f, clock, lastTick, u, after);
    } else {
      var e, rest := before[0], before[1..];
      assert before == [e] + rest && (before + after)[1..] == rest + after;
      RunSplit(cfg, f, e, rest);
      StepKeepsInv(cfg, f, e);
      ClockedStep(cfg, f, clock, lastTick, e);
      i := EveryWaiterServed(cfg, period, Step(cfg, f, e).inner, End(e),
                             if e.Tick? then e.now else lastTick, rest, after, u);
    }
  }
}
