/** Whole runs of the recorder: which arrivals are on record, and how the reported windows follow
    each other in the unwrapped sequence space. */
module TwccWindows {
  import opened Words
  import opened Twcc
  import opened TwccDecoder

  /** An arrival carries the packet's sequence number before the 16-bit wrap. */
  datatype Event = Arrive(index: int, at: Instant) | Build(mediaSsrc: u32)

  /** A reported window [lo, hi) and the packet that reports it; `restarted` if the overflow guard moved
      the base since the window before. */
  datatype Window = Window(lo: int, hi: int, restarted: bool, packet: seq<u8>)

  /** The recorder with its base and maximum unwrapped. */
  datatype Track = Track(r: Recording, base: int, max: int, restarted: bool, windows: seq<Window>)

  function Start(): Track {
    Track(Fresh(), 0, 0, false, [])
  }

  function Advance(t: Track, e: Event): Track
    requires Valid(t.r)
  {
    match e
    case Arrive(n, at) =>
      var r := Record(t.r, Wrap16(n), at);
      if !t.r.started then t.(r := r, base := n, max := n) else t.(r := r, max := Max(t.max, n))
    case Build(ssrc) =>
      var r, p := AfterBuild(t.r), BuildFeedback(t.r, ssrc);
      if p.Some? then
        Track(r, t.max + 1, t.max, false, t.windows + [Window(t.base, t.max + 1, t.restarted, p.value)])
      else if t.r.started && PendingCount(t.r) > CAPACITY then t.(r := r, base := t.max - 100, restarted := true)
      else t.(r := r)
  }

  function Play(es: seq<Event>): (t: Track)
    ensures Valid(t.r)
  {
    if es == [] then Start() else Advance(Play(es[..|es| - 1]), es[|es| - 1])
  }

  /** Each arrival lies less than 2^15 from the maximum, and fewer than 2^16 numbers are pending. */
  ghost predicate Legal(es: seq<Event>) {
    es != [] ==>
      var t, e := Play(es[..|es| - 1]), es[|es| - 1];
      && Legal(es[..|es| - 1])
      && (e.Arrive? && t.r.started ==>
            -0x8000 < e.index - t.max < 0x8000 && Max(t.max, e.index) - t.base + 1 < 0x1_0000)
  }

  /** The 16-bit fields are the wrapped counters. */
  ghost predicate Refines(t: Track) {
    t.r.started ==>
      && t.r.pendingBaseSeq == Wrap16(t.base) && t.r.maxSeq == Wrap16(t.max)
      && 0 <= t.max - t.base + 1 < 0x1_0000
  }

  lemma PendingIsWindow(t: Track)
    requires Refines(t) && t.r.started
    ensures PendingCount(t.r) == t.max - t.base + 1
  {
    WrapDifference16(t.max, t.base);
    WrapInner16(t.max - t.base, 1);
  }

  lemma RefinesArrival(t: Track, n: int, at: Instant)
    requires Valid(t.r) && Refines(t)
    requires t.r.started ==> -0x8000 < n - t.max < 0x8000 && Max(t.max, n) - t.base + 1 < 0x1_0000
    ensures Refines(Advance(t, Arrive(n, at)))
  {
    if t.r.started {
      WrapDifference16(n, t.max);
      Congruent16(n - t.max, n - t.max + 0x1_0000, -1);
    }
  }

  lemma RefinesBuild(t: Track, ssrc: u32)
    requires Valid(t.r) && Refines(t)
    ensures Refines(Advance(t, Build(ssrc)))
    ensures t.base <= Advance(t, Build(ssrc)).base
  {
    if t.r.started {
      PendingIsWindow(t);
      WrapInner16(t.base, t.max - t.base + 1);
      WrapInner16(t.max, -100);
    }
  }

  /** The window's packet decodes to exactly that window. */
  ghost predicate Reports(w: Window) {
    var f := Decode(w.packet);
    w.lo < w.hi && f.Some? && f.value.baseSeq == Wrap16(w.lo) && |f.value.statuses| == w.hi - w.lo
  }

  predicate Follows(before: Window, w: Window) {
    before.hi <= w.lo && (!w.restarted ==> before.hi == w.lo)
  }

  /** Windows in order and disjoint, each starting where the last one ended unless the guard intervened. */
  ghost predicate InOrder(ws: seq<Window>) {
    && (forall i :: 0 <= i < |ws| ==> Reports(ws[i]))
    && (forall i :: 0 < i < |ws| ==> Follows(ws[i - 1], ws[i]))
  }

  ghost predicate Tiled(t: Track) {
    && InOrder(t.windows)
    && (t.windows != [] ==>
          && t.r.started && t.windows[|t.windows| - 1].hi <= t.base
          && (!t.restarted ==> t.windows[|t.windows| - 1].hi == t.base))
  }

  lemma AppendHolds<T>(ws: seq<T>, w: T, holds: (nat, T) -> bool)
    ensures (forall i :: 0 <= i < |ws| ==> holds(i, ws[i])) && holds(|ws|, w) ==>
              forall i :: 0 <= i < |ws + [w]| ==> holds(i, (ws + [w])[i])
  {
  }

  /** What holds of neighbours still does with one more element that follows the last. */
  lemma AppendLinks<T>(ws: seq<T>, w: T, link: (T, T) -> bool)
    ensures (forall i :: 0 < i < |ws| ==> link(ws[i - 1], ws[i])) && (ws != [] ==> link(ws[|ws| - 1], w)) ==>
              forall i :: 0 < i < |ws + [w]| ==> link((ws + [w])[i - 1], (ws + [w])[i])
  {
  }

  lemma ReportsAppend(ws: seq<Window>, w: Window)
    ensures (forall i :: 0 <= i < |ws| ==> Reports(ws[i])) && Reports(w) ==>
              forall i :: 0 <= i < |ws + [w]| ==> Reports((ws + [w])[i])
  {
    AppendHolds(ws, w, (i: nat, x: Window) => Reports(x));
  }

  lemma InOrderAppend(ws: seq<Window>, w: Window)
    ensures InOrder(ws) && Reports(w) && (ws != [] ==> Follows(ws[|ws| - 1], w)) ==> InOrder(ws + [w])
  {
    ReportsAppend(ws, w);
    AppendLinks(ws, w, (x: Window, y: Window) => Follows(x, y));
  }

  lemma EmissionReports(t: Track, ssrc: u32, restarted: bool)
    requires Valid(t.r) && Refines(t) && !NothingToReport(t.r)
    ensures Reports(Window(t.base, t.max + 1, restarted, BuildFeedback(t.r, ssrc).value))
  {
    PendingIsWindow(t);
    FeedbackRoundTrip(t.r, ssrc);
  }

  lemma QuietBuild(t: Track, ssrc: u32)
    requires Valid(t.r) && Refines(t) && NothingToReport(t.r)
    ensures var u := Advance(t, Build(ssrc));
            && u.windows == t.windows && u.r.started == t.r.started && t.base <= u.base
            && (u.restarted || (u.base == t.base && !t.restarted))
  {
    if t.r.started {
      PendingIsWindow(t);
    }
  }

  lemma Emission(t: Track, ssrc: u32) returns (w: Window)
    requires Valid(t.r) && Refines(t) && !NothingToReport(t.r)
    ensures w.lo == t.base && w.hi == t.max + 1 && w.restarted == t.restarted && Reports(w)
    ensures Advance(t, Build(ssrc)) == Track(AfterBuild(t.r), t.max + 1, t.max, false, t.windows + [w])
  {
    w := Window(t.base, t.max + 1, t.restarted, BuildFeedback(t.r, ssrc).value);
    EmissionReports(t, ssrc, t.restarted);
  }

  lemma TiledAppend(t: Track, u: Track, w: Window)
    requires u.windows == t.windows + [w] && u.r.started && u.base == w.hi
    requires w.lo == t.base && w.restarted == t.restarted
    ensures Tiled(t) && Reports(w) ==> Tiled(u)
  {
    InOrderAppend(t.windows, w);
  }

  lemma TiledEmission(t: Track, ssrc: u32)
    requires Valid(t.r) && Refines(t) && Tiled(t) && !NothingToReport(t.r)
    ensures Tiled(Advance(t, Build(ssrc)))
  {
    var w := Emission(t, ssrc);
    TiledAppend(t, Advance(t, Build(ssrc)), w);
  }

  lemma TiledStep(t: Track, e: Event)
    requires Valid(t.r) && Refines(t) && Tiled(t)
    ensures Tiled(Advance(t, e))
  {
    if e.Build? {
      if NothingToReport(t.r) {
        QuietBuild(t, e.mediaSsrc);
      } else {
        TiledEmission(t, e.mediaSsrc);
      }
    }
  }

  lemma {:induction false} RunRefines(es: seq<Event>)
    requires Legal(es)
    ensures Refines(Play(es))
  {
    if es != [] {
      var init, e := es[..|es| - 1], es[|es| - 1];
      RunRefines(init);
      if e.Arrive? {
        RefinesArrival(Play(init), e.index, e.at);
      } else {
        RefinesBuild(Play(init), e.mediaSsrc);
      }
    }
  }

  /** Over every legal run: the unwrapped base never passes max + 1, only moves forward, and the emitted
      windows tile the sequence space, adjacent except where the overflow guard restarted. */
  lemma {:induction false} FeedbackWindowsTile(es: seq<Event>)
    requires Legal(es)
    ensures Refines(Play(es)) && Tiled(Play(es))
    ensures es != [] && Play(es[..|es| - 1]).r.started ==> Play(es[..|es| - 1]).base <= Play(es).base
  {
    if es != [] {
      var init, e := es[..|es| - 1], es[|es| - 1];
      FeedbackWindowsTile(init);
      TiledStep(Play(init), e);
      RunRefines(es);
      if e.Build? {
        RefinesBuild(Play(init), e.mediaSsrc);
      }
    }
  }

  // ---------------------------------------------------------------- what is on record

  /** Every entry sits in its slot, and, with a monotonic clock, none is older than the base time. */
  ghost predicate SlotsOk(r: Recording, now: Instant) {
    && Valid(r)
    && (r.started ==> r.baseTime.value <= now)
    && forall i :: 0 <= i < CAPACITY && r.arrivals[i].Some? ==>
         r.started && r.arrivals[i].value.twccSeq % CAPACITY == i && r.baseTime.value <= r.arrivals[i].value.arrival
  }

  lemma SlotsStep(t: Track, now: Instant, e: Event)
    requires SlotsOk(t.r, now) && (e.Arrive? ==> now <= e.at)
    ensures SlotsOk(Advance(t, e).r, if e.Arrive? then e.at else now)
  {
  }

  ghost predicate MonotonicClock(es: seq<Event>, now: Instant) {
    && (forall i :: 0 <= i < |es| && es[i].Arrive? ==> es[i].at <= now)
    && (forall i, j :: 0 <= i < j < |es| && es[i].Arrive? && es[j].Arrive? ==> es[i].at <= es[j].at)
  }

  /** With a monotonic clock no recorded arrival precedes the base time ... */
  lemma {:induction false} NothingBeforeBase(es: seq<Event>, now: Instant)
    requires MonotonicClock(es, now)
    ensures SlotsOk(Play(es).r, now)
  {
    if es == [] {
      assert Play(es) == Start();
    } else {
      var init, e := es[..|es| - 1], es[|es| - 1];
      var t := if e.Arrive? then e.at else now;
      NothingBeforeBase(init, t);
      SlotsStep(Play(init), t, e);
    }
  }

  /** ... so the offset of a reported arrival never saturates. */
  lemma {:induction false} ReceivedAfterBase(r: Recording, now: Instant, n: nat, k: nat)
    requires SlotsOk(r, now) && k < |Received(r, n)|
    ensures r.started && r.baseTime.value <= Received(r, n)[k]
  {
    var slot := Wrap16(r.pendingBaseSeq + n - 1) % CAPACITY;
    if k < |Received(r, n - 1)| {
      ReceivedAfterBase(r, now, n - 1, k);
    } else {
      assert r.arrivals[slot].Some? && Received(r, n)[k] == r.arrivals[slot].value.arrival;
    }
  }

  /** On every run with a monotonic clock, whatever packet is emitted next gives back the arrival times: the first delta
      is one byte, and the k-th reconstruction errs by less than (k+1) * 250 us, plus what clamping took off the deltas
      up to it. */
  lemma RunTimesRecovered(es: seq<Event>, now: Instant, mediaSsrc: u32, k: nat) returns (f: Feedback)
    requires MonotonicClock(es, now) && !NothingToReport(Play(es).r)
    requires var r := Play(es).r; k < |Received(r, PendingCount(r))|
    ensures var r := Play(es).r;
            var base, arrivals := r.baseTime.value, Received(r, PendingCount(r));
            var ds, refTime := Deltas(base, arrivals), RefTimeRaw(base, arrivals[0]);
            && Decode(BuildFeedback(r, mediaSsrc).value) == Some(f)
            && f.refTime24 == refTime % 0x100_0000 && f.deltas == Clamped(ds) && 0 <= f.deltas[0] <= 255
            && CloseUpToExcess(base, arrivals, refTime, ds, k)
            && (InRange(ds[..k + 1]) ==> CloseTo(base, arrivals, refTime, f.deltas, k))
  {
    var r := Play(es).r;
    NothingBeforeBase(es, now);
    ReceivedAfterBase(r, now, PendingCount(r), 0);
    f := FeedbackTimes(r, mediaSsrc, k);
  }

  lemma TwoReceived(r: Recording, at: Instant)
    requires Valid(r) && r.pendingBaseSeq == 0
    requires Get(r, 0) == Some(ArrivalEntry(0, 0)) && Get(r, 1) == Some(ArrivalEntry(1, at))
    ensures Received(r, 2) == [0, at]
  {
    assert Received(r, 0) == [];
    assert Received(r, 1) == [0];
  }

  lemma TwoRecorded(at: Instant)
    ensures var r := Record(Record(Fresh(), 0, 0), 1, at);
            && Valid(r) && r.started && r.baseTime == Some(0) && r.pendingBaseSeq == 0 && r.maxSeq == 1
            && Get(r, 0) == Some(ArrivalEntry(0, 0)) && Get(r, 1) == Some(ArrivalEntry(1, at))
  {
  }

  lemma PlayNext(es: seq<Event>, e: Event)
    ensures Play(es + [e]) == Advance(Play(es), e)
  {
    assert (es + [e])[..|es|] == es;
  }

  lemma TwoPlayed(a: Event, b: Event)
    requires a.Arrive? && b.Arrive?
    ensures Play([] + [a] + [b]).r == Record(Record(Fresh(), Wrap16(a.index), a.at), Wrap16(b.index), b.at)
  {
    PlayNext([], a);
    PlayNext([] + [a], b);
  }

  lemma TwoArrivals(at: Instant)
    ensures var r := Play([] + [Arrive(0, 0)] + [Arrive(1, at)]).r;
            r.started && r.baseTime == Some(0) && PendingCount(r) == 2 && Received(r, 2) == [0, at]
  {
    TwoPlayed(Arrive(0, 0), Arrive(1, at));
    var r := Play([] + [Arrive(0, 0)] + [Arrive(1, at)]).r;
    TwoRecorded(at);
    TwoReceived(r, at);
  }

  /** A window with a clamped delta: two packets 3 s apart, which the feedback puts 2.04775 s apart. */
  lemma ThreeSecondGap(mediaSsrc: u32) returns (f: Feedback)
    ensures var r := Play([] + [Arrive(0, 0)] + [Arrive(1, 3_000_000_000)]).r;
            && !NothingToReport(r) && Decode(BuildFeedback(r, mediaSsrc).value) == Some(f)
            && f.deltas == [0, 8191] && Reconstructed(f.refTime24, f.deltas, 1) == 2_047_750_000
  {
    TwoArrivals(3_000_000_000);
    f := DecodedTimes(Play([] + [Arrive(0, 0)] + [Arrive(1, 3_000_000_000)]).r, mediaSsrc);
    GapReads(f, [0, 3_000_000_000]);
  }

  lemma GapReads(f: Feedback, arrivals: seq<Instant>)
    requires arrivals == [0, 3_000_000_000]
    requires f.refTime24 == RefTimeRaw(0, arrivals[0]) % 0x100_0000 && f.deltas == Clamped(Deltas(0, arrivals))
    ensures f.deltas == [0, 8191] && Reconstructed(f.refTime24, f.deltas, 1) == 2_047_750_000
  {
    ThreeSecondsRead();
  }

  /** An arrival stays on record until another number of the same slot arrives: it survives every further
      event whose numbers stay within the ring around it. */
  lemma {:induction false} ArrivalRetained(t: Track, n: int, at: Instant, es: seq<Event>)
    requires Valid(t.r) && Get(t.r, Wrap16(n)) == Some(ArrivalEntry(Wrap16(n), at))
    requires forall i :: 0 <= i < |es| && es[i].Arrive? ==> es[i].index != n && -CAPACITY < es[i].index - n < CAPACITY
    ensures Get(PlayFrom(t, es).r, Wrap16(n)) == Some(ArrivalEntry(Wrap16(n), at))
  {
    if es != [] {
      ArrivalRetained(t, n, at, es[..|es| - 1]);
      if es[|es| - 1].Arrive? {
        DifferentSlot(n, es[|es| - 1].index);
      }
    }
  }

  function PlayFrom(t: Track, es: seq<Event>): (u: Track)
    requires Valid(t.r)
    ensures Valid(u.r)
  {
    if es == [] then t else Advance(PlayFrom(t, es[..|es| - 1]), es[|es| - 1])
  }

  lemma DifferentSlot(n: int, m: int)
    requires n != m && -CAPACITY < m - n < CAPACITY
    ensures Wrap16(n) % CAPACITY != Wrap16(m) % CAPACITY
  {
    WrapSlot(n);
    WrapSlot(m);
    assert m - n == CAPACITY * (m / CAPACITY - n / CAPACITY) + (m % CAPACITY - n % CAPACITY);
  }

  // ---------------------------------------------------------------- what a status means

  ghost predicate Arrived(es: seq<Event>, n: int) {
    exists i :: 0 <= i < |es| && es[i].Arrive? && es[i].index == n
  }

  /** The number that arrived last among those of a slot. */
  function LastInSlot(es: seq<Event>, slot: nat): Option<int> {
    if es == [] then None
    else
      var e := es[|es| - 1];
      if e.Arrive? && e.index % CAPACITY == slot then Some(e.index) else LastInSlot(es[..|es| - 1], slot)
  }

  lemma {:induction false} SlotTracks(es: seq<Event>, slot: nat)
    requires slot < CAPACITY
    ensures var entry, last := Play(es).r.arrivals[slot], LastInSlot(es, slot);
            (entry.Some? <==> last.Some?) && (entry.Some? ==> entry.value.twccSeq == Wrap16(last.value))
  {
    if es != [] {
      SlotTracks(es[..|es| - 1], slot);
      SlotAfter(Play(es[..|es| - 1]), es[|es| - 1], slot);
    }
  }

  lemma SlotAfter(t: Track, e: Event, slot: nat)
    requires Valid(t.r) && slot < CAPACITY
    ensures var entry := Advance(t, e).r.arrivals[slot];
            if e.Arrive? && e.index % CAPACITY == slot then entry.Some? && entry.value.twccSeq == Wrap16(e.index)
            else entry == t.r.arrivals[slot]
  {
    if e.Arrive? {
      WrapSlot(e.index);
    }
  }

  /** On any run: a number is on record exactly when the last arrival in its slot has the same 16 bits. */
  lemma OnRecordIff(es: seq<Event>, n: int)
    ensures Get(Play(es).r, Wrap16(n)).Some? <==>
            LastInSlot(es, n % CAPACITY).Some? && Wrap16(LastInSlot(es, n % CAPACITY).value) == Wrap16(n)
  {
    WrapSlot(n);
    SlotTracks(es, n % CAPACITY);
  }

  /** No arrival is a whole ring or more behind the maximum. */
  ghost predicate Prompt(es: seq<Event>) {
    es != [] ==>
      var t, e := Play(es[..|es| - 1]), es[|es| - 1];
      Prompt(es[..|es| - 1]) && (e.Arrive? && t.r.started ==> t.max - CAPACITY < e.index)
  }

  lemma ArrivedAppend(es: seq<Event>, n: int)
    requires es != []
    ensures Arrived(es, n) <==>
            Arrived(es[..|es| - 1], n) || (es[|es| - 1].Arrive? && es[|es| - 1].index == n)
  {
    var init := es[..|es| - 1];
    if Arrived(init, n) {
      var i :| 0 <= i < |init| && init[i].Arrive? && init[i].index == n;
      assert es[i] == init[i];
    }
    if Arrived(es, n) {
      var i :| 0 <= i < |es| && es[i].Arrive? && es[i].index == n;
      if i < |init| {
        assert init[i] == es[i];
      }
    }
  }

  lemma {:induction false} ArrivedBelowMax(es: seq<Event>, n: int)
    requires Arrived(es, n)
    ensures Play(es).r.started && n <= Play(es).max
  {
    ArrivedAppend(es, n);
    if Arrived(es[..|es| - 1], n) {
      ArrivedBelowMax(es[..|es| - 1], n);
    }
  }

  /** With prompt arrivals, the last number of a slot is its highest. */
  lemma {:induction false} LastIsHighest(es: seq<Event>, n: int)
    requires Prompt(es) && Arrived(es, n)
    ensures var last := LastInSlot(es, n % CAPACITY); last.Some? && n <= last.value && Arrived(es, last.value)
  {
    var init, e := es[..|es| - 1], es[|es| - 1];
    ArrivedAppend(es, n);
    if Arrived(init, n) {
      LastIsHighest(init, n);
      var last := LastInSlot(init, n % CAPACITY).value;
      ArrivedAppend(es, last);
      if e.Arrive? && e.index % CAPACITY == n % CAPACITY {
        ArrivedBelowMax(init, last);
        LastSlot(init, n % CAPACITY);
        SameSlot(e.index, last);
        ArrivedAppend(es, e.index);
      }
    }
  }

  lemma {:induction false} LastSlot(es: seq<Event>, slot: nat)
    requires LastInSlot(es, slot).Some?
    ensures LastInSlot(es, slot).value % CAPACITY == slot && Arrived(es, LastInSlot(es, slot).value)
  {
    var e := es[|es| - 1];
    ArrivedAppend(es, LastInSlot(es, slot).value);
    if !(e.Arrive? && e.index % CAPACITY == slot) {
      LastSlot(es[..|es| - 1], slot);
    }
  }

  lemma SameSlot(m: int, n: int)
    requires m % CAPACITY == n % CAPACITY && m > n - CAPACITY
    ensures m >= n
  {
    assert m - n == CAPACITY * (m / CAPACITY - n / CAPACITY);
  }

  /** The highest number that arrived in the slot of `n` is a whole number of 16-bit rounds older than `n`. */
  ghost predicate Stale(es: seq<Event>, n: int) {
    exists m :: Arrived(es, m) && m < n && m % 0x1_0000 == n % 0x1_0000 && NewestInSlot(es, m)
  }

  ghost predicate NewestInSlot(es: seq<Event>, m: int) {
    forall k :: Arrived(es, k) && k % CAPACITY == m % CAPACITY ==> k <= m
  }

  lemma RoundSlot(m: int, n: int)
    requires m % 0x1_0000 == n % 0x1_0000
    ensures m % CAPACITY == n % CAPACITY && Wrap16(m) == Wrap16(n)
  {
    WrapSlot(m);
    WrapSlot(n);
  }

  lemma ArrivedOnRecord(es: seq<Event>, n: int)
    requires Prompt(es) && Play(es).max - CAPACITY < n && Arrived(es, n)
    ensures Get(Play(es).r, Wrap16(n)).Some?
  {
    OnRecordIff(es, n);
    LastIsHighest(es, n);
    LastSlot(es, n % CAPACITY);
    var last := LastInSlot(es, n % CAPACITY).value;
    ArrivedBelowMax(es, last);
    SameSlot(n, last);
  }

  lemma AbsentOnRecord(es: seq<Event>, n: int)
    requires Prompt(es) && Play(es).max - CAPACITY < n <= Play(es).max && !Arrived(es, n)
    ensures Get(Play(es).r, Wrap16(n)).Some? <==> Stale(es, n)
  {
    OnRecordIff(es, n);
    var last := LastInSlot(es, n % CAPACITY);
    if Get(Play(es).r, Wrap16(n)).Some? {
      LastSlot(es, n % CAPACITY);
      ArrivedBelowMax(es, last.value);
      if last.value > n {
        SameSlot(n, last.value);
      }
      forall k | Arrived(es, k) && k % CAPACITY == last.value % CAPACITY
        ensures k <= last.value
      {
        LastIsHighest(es, k);
      }
      assert NewestInSlot(es, last.value);
    }
    if Stale(es, n) {
      var m :| Arrived(es, m) && m < n && m % 0x1_0000 == n % 0x1_0000 && NewestInSlot(es, m);
      RoundSlot(m, n);
      LastIsHighest(es, m);
      LastSlot(es, n % CAPACITY);
    }
  }

  /** Over every run without arrivals a whole ring late, for every number of a window the builder reports: "not
      received" means the number never arrived, and "received" that it did, unless the newest arrival of its slot is
      exactly 2^16 numbers, or a multiple, older; that one is then taken for it. */
  lemma StatusMeansArrival(es: seq<Event>, n: int)
    requires Prompt(es) && Play(es).max - CAPACITY < n <= Play(es).max
    ensures (Get(Play(es).r, Wrap16(n)).None? <==> !Arrived(es, n)) <==> Arrived(es, n) || !Stale(es, n)
    ensures Arrived(es, n) ==> Get(Play(es).r, Wrap16(n)).Some?
  {
    if Arrived(es, n) {
      ArrivedOnRecord(es, n);
    } else {
      AbsentOnRecord(es, n);
    }
  }

  /** The same, read off the packet: over every legal and prompt run, the i-th decoded status says whether number base
      + i arrived, stale slots aside. */
  lemma FeedbackTellsTruth(es: seq<Event>, mediaSsrc: u32, i: nat) returns (f: Feedback)
    requires Legal(es) && Prompt(es) && !NothingToReport(Play(es).r) && i < PendingCount(Play(es).r)
    ensures Decode(BuildFeedback(Play(es).r, mediaSsrc).value) == Some(f)
    ensures var t := Play(es);
            var n := t.base + i;
            && |f.statuses| == t.max - t.base + 1 == PendingCount(t.r)
            && (Arrived(es, n) ==> !f.statuses[i].NotReceived?)
            && (!Arrived(es, n) ==> (f.statuses[i].NotReceived? <==> !Stale(es, n)))
  {
    var t := Play(es);
    var n := t.base + i;
    WindowNumber(es, i);
    StatusMeansArrival(es, n);
    f := StatusSays(t.r, mediaSsrc, i, Wrap16(n), Arrived(es, n), Stale(es, n));
  }

  lemma StatusSays(r: Recording, mediaSsrc: u32, i: nat, twccSeq: u16, arrived: bool, stale: bool) returns (f: Feedback)
    requires Valid(r) && !NothingToReport(r) && i < PendingCount(r) && Wrap16(r.pendingBaseSeq + i) == twccSeq
    requires if arrived then Get(r, twccSeq).Some? else Get(r, twccSeq).None? <==> !stale
    ensures Decode(BuildFeedback(r, mediaSsrc).value) == Some(f) && |f.statuses| == PendingCount(r)
    ensures if arrived then !f.statuses[i].NotReceived? else f.statuses[i].NotReceived? <==> !stale
  {
    f := DecodedStatus(r, mediaSsrc, i);
  }

  lemma DecodedStatus(r: Recording, mediaSsrc: u32, i: nat) returns (f: Feedback)
    requires Valid(r) && !NothingToReport(r) && i < PendingCount(r)
    ensures Decode(BuildFeedback(r, mediaSsrc).value) == Some(f)
    ensures |f.statuses| == PendingCount(r)
    ensures f.statuses[i].NotReceived? <==> Get(r, Wrap16(r.pendingBaseSeq + i)).None?
  {
    FeedbackRoundTrip(r, mediaSsrc);
    f := Decode(BuildFeedback(r, mediaSsrc).value).value;
  }

  lemma WindowNumber(es: seq<Event>, i: nat)
    requires Legal(es) && !NothingToReport(Play(es).r) && i < PendingCount(Play(es).r)
    ensures var t := Play(es);
            && PendingCount(t.r) == t.max - t.base + 1 && t.max - CAPACITY < t.base + i <= t.max
            && Wrap16(t.r.pendingBaseSeq + i) == Wrap16(t.base + i)
  {
    RunRefines(es);
    TrackNumber(Play(es), i);
  }

  lemma TrackNumber(t: Track, i: nat)
    requires Valid(t.r) && Refines(t) && !NothingToReport(t.r) && i < PendingCount(t.r)
    ensures PendingCount(t.r) == t.max - t.base + 1 && t.max - CAPACITY < t.base + i <= t.max
    ensures Wrap16(t.r.pendingBaseSeq + i) == Wrap16(t.base + i)
  {
    PendingIsWindow(t);
    WrapInner16(t.base, i);
  }

  // ---------------------------------------------------------------- when a packet is emitted, and its count

  /** The last arrival in the number's slot has the same 16 bits. */
  predicate Recorded(es: seq<Event>, n: int) {
    var last := LastInSlot(es, n % CAPACITY);
    last.Some? && Wrap16(last.value) == Wrap16(n)
  }

  /** The `i`-th number of the pending window has an entry. */
  predicate Held(r: Recording, i: nat)
    requires |r.arrivals| == CAPACITY
  {
    Get(r, Wrap16(r.pendingBaseSeq + i)).Some?
  }

  lemma ReceivedStep(r: Recording, n: nat)
    requires |r.arrivals| == CAPACITY && n > 0
    ensures Received(r, n) != [] <==> Received(r, n - 1) != [] || Held(r, n - 1)
  {
  }

  lemma {:induction false} ReceivedIff(r: Recording, n: nat)
    requires |r.arrivals| == CAPACITY
    ensures Received(r, n) != [] <==> exists i :: 0 <= i < n && Held(r, i)
  {
    if n > 0 {
      ReceivedStep(r, n);
      ReceivedIff(r, n - 1);
    }
  }

  /** Some number of the pending window is on record. */
  ghost predicate SomeRecorded(es: seq<Event>) {
    exists n :: Play(es).base <= n <= Play(es).max && Recorded(es, n)
  }

  lemma HeldIff(es: seq<Event>, i: nat)
    requires Legal(es) && Play(es).r.started
    ensures Held(Play(es).r, i) <==> Recorded(es, Play(es).base + i)
  {
    RunRefines(es);
    WrapInner16(Play(es).base, i);
    OnRecordIff(es, Play(es).base + i);
  }

  lemma ReceivedIffRecorded(es: seq<Event>)
    requires Legal(es) && Play(es).r.started
    ensures var r := Play(es).r; Received(r, PendingCount(r)) != [] <==> SomeRecorded(es)
  {
    var t := Play(es);
    RunRefines(es);
    PendingIsWindow(t);
    ReceivedIff(t.r, PendingCount(t.r));
    if SomeRecorded(es) {
      var n :| t.base <= n <= t.max && Recorded(es, n);
      HeldIff(es, n - t.base);
    }
    if i :| 0 <= i < PendingCount(t.r) && Held(t.r, i) {
      HeldIff(es, i);
    }
  }

  lemma {:induction false} StartedIff(es: seq<Event>)
    ensures Play(es).r.started <==> exists i :: 0 <= i < |es| && es[i].Arrive?
  {
    if es != [] {
      var init, e := es[..|es| - 1], es[|es| - 1];
      StartedIff(init);
      StartedStep(Play(init), e);
      if e.Build? {
        assert forall i :: 0 <= i < |init| ==> es[i] == init[i];
      }
    }
  }

  lemma StartedStep(t: Track, e: Event)
    requires Valid(t.r)
    ensures Advance(t, e).r.started <==> t.r.started || e.Arrive?
  {
  }

  /** Over every legal run, building emits a packet exactly when something has arrived, the window holds 1 to 8192
      numbers and one of them is on record; the window reported is then the whole of it. Nothing is emitted otherwise,
      and only a wider window moves the base, to 100 below the maximum. */
  lemma EmitsIff(es: seq<Event>, mediaSsrc: u32)
    requires Legal(es)
    ensures var t, u := Play(es), Play(es + [Build(mediaSsrc)]);
            var size := t.max - t.base + 1;
            var started := exists i :: 0 <= i < |es| && es[i].Arrive?;
            if started && 1 <= size <= CAPACITY && SomeRecorded(es) then
              && |u.windows| == |t.windows| + 1 && u.windows[..|t.windows|] == t.windows
              && u.windows[|t.windows|].lo == t.base && u.windows[|t.windows|].hi == t.max + 1
              && u.base == t.max + 1
            else u.windows == t.windows && u.base == if started && size > CAPACITY then t.max - 100 else t.base
  {
    var t := Play(es);
    PlayAppend(es, Build(mediaSsrc));
    StartedIff(es);
    RunRefines(es);
    if t.r.started {
      PendingIsWindow(t);
      ReceivedIffRecorded(es);
    }
  }

  function Arrivals(es: seq<Event>): nat {
    if es == [] then 0 else Arrivals(es[..|es| - 1]) + if es[|es| - 1].Arrive? then 1 else 0
  }

  /** The recorder's total counts the arrivals. */
  lemma {:induction false} TotalIsArrivals(es: seq<Event>)
    ensures Play(es).r.count == Arrivals(es)
  {
    if es != [] {
      TotalIsArrivals(es[..|es| - 1]);
      CountStep(Play(es[..|es| - 1]), es[|es| - 1]);
    }
  }

  lemma CountStep(t: Track, e: Event)
    requires Valid(t.r)
    ensures Advance(t, e).r.count == t.r.count + if e.Arrive? then 1 else 0
  {
  }

  /** The packets bear the numbers 0, 1, 2, .. modulo 256, and the recorder knows the next one. */
  ghost predicate Numbered(t: Track) {
    && t.r.fbPktCount == |t.windows| % 0x100
    && forall i :: 0 <= i < |t.windows| ==> CountIs(i, t.windows[i])
  }

  ghost predicate CountIs(i: nat, w: Window) {
    Decode(w.packet).Some? && Decode(w.packet).value.fbPktCount == i % 0x100
  }

  lemma NextCount(n: nat)
    ensures (n % 0x100 + 1) % 0x100 == (n + 1) % 0x100
  {
  }

  lemma CountsAppend(ws: seq<Window>, w: Window)
    ensures (forall i :: 0 <= i < |ws| ==> CountIs(i, ws[i])) && CountIs(|ws|, w) ==>
              forall i :: 0 <= i < |ws + [w]| ==> CountIs(i, (ws + [w])[i])
  {
    AppendHolds(ws, w, (i: nat, x: Window) => CountIs(i, x));
  }

  lemma NumberedAppend(t: Track, u: Track, w: Window)
    requires u.windows == t.windows + [w] && u.r.fbPktCount == (t.r.fbPktCount as int + 1) % 0x100
    ensures Numbered(t) && CountIs(|t.windows|, w) ==> Numbered(u)
  {
    CountsAppend(t.windows, w);
    NextCount(|t.windows|);
  }

  lemma CountRead(r: Recording, ssrc: u32, w: Window, k: nat)
    requires Valid(r) && !NothingToReport(r)
    requires w.packet == BuildFeedback(r, ssrc).value && r.fbPktCount == k % 0x100
    ensures CountIs(k, w)
  {
    FeedbackRoundTrip(r, ssrc);
  }

  lemma BuildAdvances(t: Track, ssrc: u32) returns (w: Window)
    requires Valid(t.r) && !NothingToReport(t.r)
    ensures w.packet == BuildFeedback(t.r, ssrc).value
    ensures var u := Advance(t, Build(ssrc));
            u.windows == t.windows + [w] && u.r.fbPktCount == (t.r.fbPktCount as int + 1) % 0x100
  {
    w := Window(t.base, t.max + 1, t.restarted, BuildFeedback(t.r, ssrc).value);
  }

  lemma NumberedBuild(t: Track, ssrc: u32)
    requires Valid(t.r) && Numbered(t)
    ensures Numbered(Advance(t, Build(ssrc)))
  {
    if !NothingToReport(t.r) {
      var w := BuildAdvances(t, ssrc);
      CountRead(t.r, ssrc, w, |t.windows|);
      NumberedAppend(t, Advance(t, Build(ssrc)), w);
    } else {
      QuietCount(t, ssrc);
    }
  }

  lemma QuietCount(t: Track, ssrc: u32)
    requires Valid(t.r) && NothingToReport(t.r)
    ensures var u := Advance(t, Build(ssrc)); u.windows == t.windows && u.r.fbPktCount == t.r.fbPktCount
  {
  }

  /** Over every run, the i-th packet emitted reads back with feedback count i modulo 256. */
  lemma {:induction false} PacketsNumbered(es: seq<Event>)
    ensures Numbered(Play(es))
  {
    if es != [] {
      var init, e := es[..|es| - 1], es[|es| - 1];
      PacketsNumbered(init);
      if e.Build? {
        NumberedBuild(Play(init), e.mediaSsrc);
      } else {
        RecordKeepsCount(Play(init).r, Wrap16(e.index), e.at);
      }
    }
  }

  lemma RecordKeepsCount(r: Recording, twccSeq: u16, at: Instant)
    requires Valid(r)
    ensures Record(r, twccSeq, at).fbPktCount == r.fbPktCount
  {
  }

  /** A run on which that happens: number 0 arrives, the stream moves on with losses, and 65536, lost, is in a window
      the builder will report, on record as received. */
  function StaleRun(): seq<Event> {
    [Arrive(0, 0)] + [Arrive(30000, 0)] + [Build(1)] + [Arrive(60000, 0)] + [Build(1)] + [Arrive(65537, 0)]
  }

  lemma PlayAppend(es: seq<Event>, e: Event)
    ensures Play(es + [e]) == Advance(Play(es), e)
    ensures Legal(es + [e]) <==>
              && Legal(es)
              && (e.Arrive? && Play(es).r.started ==>
                    && -0x8000 < e.index - Play(es).max < 0x8000
                    && Max(Play(es).max, e.index) - Play(es).base + 1 < 0x1_0000)
    ensures Prompt(es + [e]) <==> Prompt(es) && (e.Arrive? && Play(es).r.started ==> Play(es).max - CAPACITY < e.index)
  {
    assert (es + [e])[..|es|] == es;
  }

  lemma GuardRestarts(t: Track, ssrc: u32)
    requires Valid(t.r) && Refines(t) && t.r.started && t.max - t.base + 1 > CAPACITY
    ensures var u := Advance(t, Build(ssrc)); u.base == t.max - 100 && u.max == t.max && u.r.started
  {
    PendingIsWindow(t);
  }

  lemma StaleRunLegal()
    ensures Legal(StaleRun()) && Prompt(StaleRun())
    ensures var t := Play(StaleRun()); t.base == 59900 && t.max == 65537
  {
    var a := [Arrive(0, 0)];
    assert [] + [Arrive(0, 0)] == a;
    PlayAppend([], Arrive(0, 0));
    var b := a + [Arrive(30000, 0)];
    PlayAppend(a, Arrive(30000, 0));
    RunRefines(b);
    GuardRestarts(Play(b), 1);
    var c := b + [Build(1)];
    PlayAppend(b, Build(1));
    var d := c + [Arrive(60000, 0)];
    PlayAppend(c, Arrive(60000, 0));
    RunRefines(d);
    GuardRestarts(Play(d), 1);
    var e := d + [Build(1)];
    PlayAppend(d, Build(1));
    PlayAppend(e, Arrive(65537, 0));
  }

  lemma StaleEntryReported()
    ensures Legal(StaleRun()) && !Arrived(StaleRun(), 65536)
    ensures var t := Play(StaleRun());
            t.base <= 65536 <= t.max && PendingCount(t.r) <= CAPACITY && Get(t.r, Wrap16(65536)).Some?
  {
    var es := StaleRun();
    StaleRunLegal();
    RunRefines(es);
    PendingIsWindow(Play(es));
    StaleRunArrivals();
    AbsentOnRecord(es, 65536);
  }

  lemma StaleRunArrivals()
    ensures Stale(StaleRun(), 65536) && !Arrived(StaleRun(), 65536)
  {
    var es := StaleRun();
    assert es[0] == Arrive(0, 0);
    assert forall k :: Arrived(es, k) ==> k == 0 || k == 30000 || k == 60000 || k == 65537;
    assert NewestInSlot(es, 0);
  }
}
