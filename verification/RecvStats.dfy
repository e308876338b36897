/** Receiver statistics of one source (appendices A.1 and A.3 of RFC 3550), without jitter and
    round-trip fields. */
module RecvStats {
  import opened Words

  const MAX_DROPOUT := 3000
  const MAX_MISORDER := 100
  const MIN_SEQUENTIAL := 2

  datatype Stats = Stats(
    maxSeq: u16, cycles: u32, baseSeq: u32, badSeq: u32, received: u32,
    expectedPrior: u32, receivedPrior: u32, initialized: bool, seqProbation: u32)

  const NEW := Stats(0, 0, 0, 0, 0, 0, 0, false, MIN_SEQUENTIAL)

  // ---------------------------------------------------------------- updates

  function InitSeq(s: Stats, sequence: u16): Stats {
    s.(baseSeq := sequence, maxSeq := sequence, badSeq := sequence + 1, cycles := 0,
       received := 0, receivedPrior := 0, expectedPrior := 0)
  }

  function CountOne(s: Stats): Stats {
    s.(received := Wrap32(s.received + 1))
  }

  function Update(s: Stats, sequence: u16): Stats {
    if !s.initialized then
      CountOne(InitSeq(s, sequence).(initialized := true, seqProbation := MIN_SEQUENTIAL - 1))
    else if s.seqProbation > 0 then
      if sequence == Wrap16(s.maxSeq + 1) then
        if s.seqProbation == 1 then CountOne(InitSeq(s, sequence).(seqProbation := 0))
        else CountOne(s.(seqProbation := s.seqProbation - 1, maxSeq := sequence))
      else CountOne(s.(seqProbation := MIN_SEQUENTIAL - 1, maxSeq := sequence))
    else
      var udelta := Wrap16(sequence - s.maxSeq);
      if udelta < MAX_DROPOUT then
        CountOne(s.(cycles := if sequence < s.maxSeq then Wrap32(s.cycles + 0x1_0000) else s.cycles,
                    maxSeq := sequence))
      else if udelta <= 0xFFFF - MAX_MISORDER then
        if sequence == s.badSeq then CountOne(InitSeq(s, sequence)) else s.(badSeq := sequence + 1)
      else CountOne(s)
  }

  // ---------------------------------------------------------------- reports

  datatype Block = Block(fractionLost: u8, cumulativeLost: u32, extendedHighestSeq: u32)

  function ExtendedMax(s: Stats): u32 {
    Wrap32(s.cycles + s.maxSeq)
  }

  function Expected(s: Stats): u32 {
    Wrap32(Wrap32(ExtendedMax(s) - s.baseSeq) + 1)
  }

  function ExpectedInterval(s: Stats): u32 {
    Wrap32(Expected(s) - s.expectedPrior)
  }

  function ReceivedInterval(s: Stats): u32 {
    Wrap32(s.received - s.receivedPrior)
  }

  /** The loss fraction of an interval in 256ths. */
  function Quotient(expected: nat, received: nat): nat {
    if expected > 0 then SatSub(expected, received) * 256 / expected else 0
  }

  /** The fraction before the cast to u8. */
  function LossQuotient(s: Stats): nat {
    Quotient(ExpectedInterval(s), ReceivedInterval(s))
  }

  function CumulativeLost(s: Stats): u32 {
    Min(SatSub(Expected(s), s.received), 0x7F_FFFF)
  }

  function Report(s: Stats): Block {
    Block(LossQuotient(s) % 0x100, CumulativeLost(s), ExtendedMax(s))
  }

  function AfterReport(s: Stats): Stats {
    s.(expectedPrior := Expected(s), receivedPrior := s.received)
  }

  class Receiver {
    var s: Stats

    constructor ()
      ensures s == NEW
    {
      s := NEW;
    }

    method Init(sequence: u16)
      modifies this
      ensures s == InitSeq(old(s), sequence)
    {
      s := s.(baseSeq := sequence, maxSeq := sequence);
      s := s.(badSeq := sequence + 1);
      s := s.(cycles := 0, received := 0, receivedPrior := 0, expectedPrior := 0);
    }

    method OnPacket(sequence: u16)
      modifies this
      ensures s == Update(old(s), sequence)
    {
      if !s.initialized {
        Init(sequence);
        s := s.(initialized := true, seqProbation := MIN_SEQUENTIAL - 1);
        s := s.(received := Wrap32(s.received + 1));
        return;
      }
      if s.seqProbation > 0 {
        if sequence == Wrap16(s.maxSeq + 1) {
          s := s.(seqProbation := s.seqProbation - 1, maxSeq := sequence);
          if s.seqProbation == 0 {
            Init(sequence);
          }
        } else {
          s := s.(seqProbation := MIN_SEQUENTIAL - 1, maxSeq := sequence);
        }
        s := s.(received := Wrap32(s.received + 1));
        return;
      }
      var udelta := Wrap16(sequence - s.maxSeq);
      if udelta < MAX_DROPOUT {
        if sequence < s.maxSeq {
          s := s.(cycles := Wrap32(s.cycles + 65536));
        }
        s := s.(maxSeq := sequence);
      } else if udelta <= 65535 - MAX_MISORDER {
        if sequence == s.badSeq {
          Init(sequence);
        } else {
          s := s.(badSeq := sequence + 1);
          return;
        }
      }
      s := s.(received := Wrap32(s.received + 1));
    }

    method BuildRrBlock() returns (block: Block)
      modifies this
      ensures block == Report(old(s)) && s == AfterReport(old(s))
    {
      var extendedMax := Wrap32(s.cycles + s.maxSeq);
      var expected := Wrap32(Wrap32(extendedMax - s.baseSeq) + 1);
      var lost := SatSub(expected, s.received);
      var expectedInterval := Wrap32(expected - s.expectedPrior);
      var receivedInterval := Wrap32(s.received - s.receivedPrior);
      var fraction := Quotient(expectedInterval, receivedInterval) % 0x100;
      s := s.(expectedPrior := expected, receivedPrior := s.received);
      block := Block(fraction, Min(lost, 0x7F_FFFF), extendedMax);
    }
  }

  // ---------------------------------------------------------------- extended sequence numbers

  /** `s` has followed a source from index `first` on: `max` is the highest index seen, `count` the packets. */
  ghost predicate Follows(s: Stats, first: u16, max: int, count: nat) {
    && s.initialized && s.seqProbation == 0
    && first <= max && s.baseSeq == first && s.badSeq == first + 1
    && s.maxSeq == Wrap16(max) && s.cycles == Wrap32(max - Wrap16(max)) && s.received == Wrap32(count)
  }

  lemma ExtendStep(max: int, n: int)
    requires 0 <= max <= n < max + MAX_DROPOUT
    ensures Wrap16(Wrap16(n) - Wrap16(max)) == n - max
    ensures n - Wrap16(n) == if Wrap16(n) < Wrap16(max) then max - Wrap16(max) + 0x1_0000 else max - Wrap16(max)
  {
    WrapDifference16(n, max);
    assert n - Wrap16(n) == 0x1_0000 * (n / 0x1_0000) && max - Wrap16(max) == 0x1_0000 * (max / 0x1_0000);
  }

  lemma FollowStep(s: Stats, first: u16, max: int, count: nat, n: int)
    requires Follows(s, first, max, count) && max - MAX_MISORDER <= n < max + MAX_DROPOUT
    ensures Follows(Update(s, Wrap16(n)), first, Max(max, n), count + 1)
  {
    WrapInner32(count, 1);
    if n >= max {
      ExtendStep(max, n);
      WrapInner32(max - Wrap16(max), 0x1_0000);
    } else {
      WrapDifference16(n, max);
      Congruent16(n - max, n - max + 0x1_0000, -1);
    }
  }

  /** A packet with its index before the 16-bit wrap, or a report in between. */
  datatype Sample = Seen(index: int) | Reported

  function After(s: Stats, x: Sample): Stats {
    if x.Seen? then Update(s, Wrap16(x.index)) else AfterReport(s)
  }

  function AfterAll(s: Stats, xs: seq<Sample>): Stats {
    if xs == [] then s else After(AfterAll(s, xs[..|xs| - 1]), xs[|xs| - 1])
  }

  function Highest(max: int, xs: seq<Sample>): int {
    if xs == [] then max
    else
      var m, x := Highest(max, xs[..|xs| - 1]), xs[|xs| - 1];
      if x.Seen? then Max(m, x.index) else m
  }

  function Count(xs: seq<Sample>): nat {
    if xs == [] then 0 else Count(xs[..|xs| - 1]) + if xs[|xs| - 1].Seen? then 1 else 0
  }

  /** Every packet lies at most 100 behind and less than 3000 ahead of the highest index so far. */
  ghost predicate Plausible(max: int, xs: seq<Sample>) {
    xs != [] ==>
      var m, x := Highest(max, xs[..|xs| - 1]), xs[|xs| - 1];
      Plausible(max, xs[..|xs| - 1]) && (x.Seen? ==> m - MAX_MISORDER <= x.index < m + MAX_DROPOUT)
  }

  lemma {:induction false} FollowAll(s: Stats, first: u16, max: int, count: nat, xs: seq<Sample>)
    requires Follows(s, first, max, count) && Plausible(max, xs)
    ensures Follows(AfterAll(s, xs), first, Highest(max, xs), count + Count(xs))
  {
    if xs != [] {
      var init, x := xs[..|xs| - 1], xs[|xs| - 1];
      FollowAll(s, first, max, count, init);
      if x.Seen? {
        FollowStep(AfterAll(s, init), first, Highest(max, init), count + Count(init), x.index);
      }
    }
  }

  lemma FollowsCounts(s: Stats, first: u16, max: int, count: nat)
    requires Follows(s, first, max, count)
    ensures ExtendedMax(s) == Wrap32(max) && Expected(s) == Wrap32(max - first + 1)
  {
    WrapInner32(max - Wrap16(max), Wrap16(max));
    WrapInner32(max, 0 - first);
    WrapInner32(max - first, 1);
  }

  lemma FollowsReport(s: Stats, first: u16, max: int, count: nat)
    requires Follows(s, first, max, count)
    ensures ExtendedMax(s) == Wrap32(max) && Expected(s) == Wrap32(max - first + 1) && s.received == Wrap32(count)
    ensures max - first < 0xFFFF_FFFF && count < 0x1_0000_0000 ==>
              CumulativeLost(s) == Min(SatSub(max - first + 1, count), 0x7F_FFFF)
  {
    FollowsCounts(s, first, max, count);
    if max - first < 0xFFFF_FFFF && count < 0x1_0000_0000 {
      Fits(max - first + 1);
      Fits(count);
    }
  }

  lemma Fits(x: nat)
    requires x < 0x1_0000_0000
    ensures Wrap32(x) == x
  {
  }

  lemma ProbationEnds(s: Stats, first: u16)
    requires s.initialized && s.seqProbation == 1 && first == Wrap16(s.maxSeq + 1)
    ensures Follows(Update(s, first), first, first, 1)
  {
  }

  /** After the two sequential packets of probation, over any plausible stream of any length, reports in between: the
      next report carries the true unwrapped maximum, expects exactly the spanned indices and counts every packet, all
      modulo 2^32; while both fit in 32 bits, its loss is the clamped difference between spanned indices and packets. */
  lemma ExtendedSequenceRefinement(s: Stats, first: u16, xs: seq<Sample>)
    requires s.initialized && s.seqProbation == 1 && first == Wrap16(s.maxSeq + 1)
    requires Plausible(first, xs)
    ensures var u, max := AfterAll(Update(s, first), xs), Highest(first, xs);
            && ExtendedMax(u) == Wrap32(max)
            && Expected(u) == Wrap32(max - first + 1)
            && u.received == Wrap32(Count(xs) + 1)
            && (max - first < 0xFFFF_FFFF && Count(xs) < 0xFFFF_FFFF ==>
                  CumulativeLost(u) == Min(SatSub(max - first + 1, Count(xs) + 1), 0x7F_FFFF))
  {
    var start := Update(s, first);
    ProbationEnds(s, first);
    FollowAll(start, first, first, 1, xs);
    FollowsReport(AfterAll(start, xs), first, Highest(first, xs), Count(xs) + 1);
  }

  /** A number between the reordering window behind and the dropout window ahead. */
  predicate Jumps(s: Stats, sequence: u16) {
    s.initialized && s.seqProbation == 0 && MAX_DROPOUT <= Wrap16(sequence - s.maxSeq) <= 0xFFFF - MAX_MISORDER
  }

  lemma RestartStep(s: Stats, first: u16, max: int, count: nat, n: u16)
    requires Follows(s, first, max, count)
    ensures Update(s, n).baseSeq != first <==> n == first + 1 && Jumps(s, n)
    ensures Update(s, n).baseSeq != first ==> Update(s, n) == CountOne(InitSeq(s, n))
  {
  }

  /** How far ahead of `max` the number after `first` looks. */
  lemma DistanceTo(first: u16, max: int)
    ensures var d := (max - first) % 0x1_0000;
            Wrap16((first + 1) - Wrap16(max)) == if d <= 1 then 1 - d else 0x1_0001 - d
  {
    var d := (max - first) % 0x1_0000;
    WrapDifference16(first + 1, max);
    var x := if d <= 1 then 1 - d else 0x1_0001 - d;
    Congruent16(first + 1 - max, x, 0 - (max - first) / 0x1_0000 - if d <= 1 then 0 else 1);
  }

  lemma FirstSuccessorJumps(s: Stats, first: u16, max: int, count: nat)
    requires Follows(s, first, max, count) && first < 0xFFFF
    ensures Jumps(s, first + 1) <==> MAX_MISORDER + 2 <= (max - first) % 0x1_0000 <= 0x1_0000 - MAX_DROPOUT + 1
  {
    DistanceTo(first, max);
  }

  /** Appendix A.1 restarts on two consecutive jumping numbers. Here the mark starts at first + 1 and no plausible
      packet moves it, so over any plausible stream one single packet restarts the source: number first + 1, once the
      maximum is, modulo 2^16, 102 to 62537 ahead of first. If first is 65535, none does. */
  lemma SingleJumpRestarts(s: Stats, first: u16, xs: seq<Sample>, n: u16)
    requires s.initialized && s.seqProbation == 1 && first == Wrap16(s.maxSeq + 1)
    requires Plausible(first, xs)
    ensures var u, ahead := AfterAll(Update(s, first), xs), (Highest(first, xs) - first) % 0x1_0000;
            && u.baseSeq == first
            && (Update(u, n).baseSeq != first <==> n == first + 1 && 102 <= ahead <= 62537)
            && (Update(u, n).baseSeq != first ==> Update(u, n) == CountOne(InitSeq(u, n)))
  {
    var start := Update(s, first);
    ProbationEnds(s, first);
    FollowAll(start, first, first, 1, xs);
    RestartStep(AfterAll(start, xs), first, Highest(first, xs), 1 + Count(xs), n);
    if first < 0xFFFF {
      FirstSuccessorJumps(AfterAll(start, xs), first, Highest(first, xs), 1 + Count(xs));
    }
  }

  /** Two consecutive jumping numbers restart exactly when they do not wrap, since the mark is never masked. */
  lemma JumpPairRestarts(s: Stats, n: u16)
    requires Jumps(s, n) && n != s.badSeq && Jumps(s, Wrap16(n + 1))
    ensures Update(s, n) == s.(badSeq := n + 1)
    ensures Update(Update(s, n), Wrap16(n + 1)) == CountOne(InitSeq(Update(s, n), Wrap16(n + 1))) <==> n < 0xFFFF
  {
    var u := Update(s, n);
    if n == 0xFFFF {
      assert Update(u, 0).badSeq == 1 && Update(u, 0).received == u.received;
      assert Update(u, 0).baseSeq == u.baseSeq && Update(u, 0).maxSeq == u.maxSeq;
    }
  }

  // ---------------------------------------------------------------- the loss fraction

  datatype Event = Packet(sequence: u16) | MakeReport

  function Step(s: Stats, e: Event): Stats {
    match e
    case Packet(n) => Update(s, n)
    case MakeReport => AfterReport(s)
  }

  function Run(s: Stats, es: seq<Event>): Stats {
    if es == [] then s else Step(Run(s, es[..|es| - 1]), es[|es| - 1])
  }

  /** Packets since the last report in a run. */
  function SinceReport(es: seq<Event>): nat {
    if es == [] || es[|es| - 1].MakeReport? then 0 else SinceReport(es[..|es| - 1]) + 1
  }

  /** `k` receptions were counted since the last snapshot (or since a restart); none of them, nothing new expected. */
  ghost predicate Accounted(s: Stats, k: nat) {
    && s.initialized
    && s.received == Wrap32(s.receivedPrior + k)
    && (k == 0 ==> Expected(s) == s.expectedPrior)
  }

  predicate Restarted(u: Stats) {
    u.initialized && u.received == 1 && u.receivedPrior == 0 && u.expectedPrior == 0
  }

  predicate Counted(s: Stats, u: Stats) {
    s.initialized && u.initialized && u.received == Wrap32(s.received + 1) && u.receivedPrior == s.receivedPrior
  }

  /** A packet restarts the statistics, is counted, or leaves them alone but for the mark. */
  lemma UpdateKinds(s: Stats, n: u16)
    ensures var u := Update(s, n);
            Restarted(u) || Counted(s, u) || (s.initialized && u == s.(badSeq := u.badSeq))
  {
  }

  lemma AccountedPacket(s: Stats, u: Stats, k: nat) returns (k': nat)
    requires s.initialized ==> Accounted(s, k)
    requires Restarted(u) || Counted(s, u) || (s.initialized && u == s.(badSeq := u.badSeq))
    ensures Accounted(u, k') && k' <= k + 1
  {
    WrapInner32(s.receivedPrior + k, 1);
    k' := if Restarted(u) then 1 else if Counted(s, u) then k + 1 else k;
  }

  lemma AccountedStep(s: Stats, k: nat, e: Event) returns (k': nat)
    requires s.initialized ==> Accounted(s, k)
    ensures Step(s, e).initialized ==> Accounted(Step(s, e), k')
    ensures k' <= if e.Packet? then k + 1 else 0
  {
    k' := 0;
    if e.Packet? {
      UpdateKinds(s, e.sequence);
      k' := AccountedPacket(s, Update(s, e.sequence), k);
    }
  }

  lemma {:induction false} AccountedRun(es: seq<Event>) returns (k: nat)
    ensures Run(NEW, es).initialized ==> Accounted(Run(NEW, es), k)
    ensures k <= SinceReport(es)
  {
    k := 0;
    if es != [] {
      k := AccountedRun(es[..|es| - 1]);
      k := AccountedStep(Run(NEW, es[..|es| - 1]), k, es[|es| - 1]);
    }
  }

  lemma QuotientExact(expected: nat, received: nat)
    ensures Quotient(expected, received) <= 256
    ensures Quotient(expected, received) == 256 <==> expected > 0 && received == 0
  {
    if expected > 0 {
      var lost := SatSub(expected, received) * 256;
      var q := lost / expected;
      assert lost == expected * q + lost % expected;
      if q >= 256 {
        Scale(expected, 256, q);
      }
      if received == 0 && q < 256 {
        Scale(expected, q, 255);
      }
      if q > 256 {
        Scale(expected, 257, q);
      }
    }
  }

  lemma Scale(d: nat, a: nat, b: nat)
    requires a <= b
    ensures d * a <= d * b
  {
    assert d * b == d * a + d * (b - a);
  }

  /** The cast loses something in exactly one situation: something was expected and nothing received. */
  lemma CastExactIff(s: Stats)
    ensures Report(s).fractionLost == LossQuotient(s) <==> ExpectedInterval(s) == 0 || ReceivedInterval(s) > 0
  {
    var e, r := ExpectedInterval(s), ReceivedInterval(s);
    QuotientExact(e, r);
    ByteCast(Quotient(e, r));
    assert Report(s).fractionLost == Quotient(e, r) % 0x100;
  }

  lemma ByteCast(q: nat)
    requires q <= 256
    ensures q % 0x100 == q <==> q != 256
  {
  }

  /** In every reachable initialised state, through probation restarts, source restarts and any number of
      reports, the reported fraction is the true quotient: expected advances only with a reception. */
  lemma LossFractionNeverWraps(es: seq<Event>)
    requires Run(NEW, es).initialized && SinceReport(es) < 0x1_0000_0000
    ensures Report(Run(NEW, es)).fractionLost == LossQuotient(Run(NEW, es))
  {
    var k := AccountedRun(es);
    var s := Run(NEW, es);
    AccountedInterval(s, k);
    CastExactIff(s);
  }

  lemma AccountedInterval(s: Stats, k: nat)
    requires Accounted(s, k) && k < 0x1_0000_0000
    ensures ReceivedInterval(s) == k && (k == 0 ==> ExpectedInterval(s) == 0)
  {
    WrapInner32(s.receivedPrior + k, 0 - s.receivedPrior);
  }

  /** Why the state has to be initialised: the fraction of a source without packets, one expected and none received,
      would be 256/256 and read as 0. The server does not report such a source: an entry is created and updated under
      one lock. */
  lemma FreshReportWraps()
    ensures LossQuotient(NEW) == 256 && Report(NEW).fractionLost == 0
  {
    QuotientExact(1, 0);
  }

  /** The quotient is the loss in 256ths, rounded down. */
  lemma QuotientFloor(expected: nat, received: nat)
    requires expected > 0
    ensures var q := Quotient(expected, received);
            q * expected <= 256 * SatSub(expected, received) < (q + 1) * expected
  {
    var lost := SatSub(expected, received) * 256;
    var q := lost / expected;
    assert lost == expected * q + lost % expected;
    assert (q + 1) * expected == q * expected + expected;
  }

  // ---------------------------------------------------------------- what a report says

  /** The highest index at the last report among the samples; before any report, everything is still to be reported. */
  function ReportedMax(first: u16, xs: seq<Sample>): int {
    if xs == [] then first - 1
    else if xs[|xs| - 1].Reported? then Highest(first, xs)
    else ReportedMax(first, xs[..|xs| - 1])
  }

  /** The packets counted up to the last report, the one that ended probation included. */
  function ReportedCount(xs: seq<Sample>): nat {
    if xs == [] then 0
    else if xs[|xs| - 1].Reported? then Count(xs) + 1
    else ReportedCount(xs[..|xs| - 1])
  }

  /** The snapshots are those of the last report. */
  ghost predicate Snapshots(s: Stats, first: u16, xs: seq<Sample>) {
    && s.expectedPrior == Wrap32(ReportedMax(first, xs) - first + 1)
    && s.receivedPrior == Wrap32(ReportedCount(xs))
  }

  /** A plausible packet touches no snapshot. */
  lemma PlausibleKeepsPriors(s: Stats, first: u16, max: int, count: nat, n: int)
    requires Follows(s, first, max, count) && max - MAX_MISORDER <= n < max + MAX_DROPOUT
    ensures Update(s, Wrap16(n)).expectedPrior == s.expectedPrior
    ensures Update(s, Wrap16(n)).receivedPrior == s.receivedPrior
  {
    if n >= max {
      ExtendStep(max, n);
    } else {
      WrapDifference16(n, max);
      Congruent16(n - max, n - max + 0x1_0000, -1);
    }
  }

  lemma {:induction false} SnapshotsFollow(start: Stats, first: u16, xs: seq<Sample>)
    requires Follows(start, first, first, 1) && start.expectedPrior == 0 && start.receivedPrior == 0
    requires Plausible(first, xs)
    ensures Snapshots(AfterAll(start, xs), first, xs)
  {
    if xs != [] {
      var init, x := xs[..|xs| - 1], xs[|xs| - 1];
      SnapshotsFollow(start, first, init);
      FollowAll(start, first, first, 1, init);
      var s := AfterAll(start, init);
      if x.Seen? {
        PlausibleKeepsPriors(s, first, Highest(first, init), 1 + Count(init), x.index);
      } else {
        FollowsCounts(s, first, Highest(first, init), 1 + Count(init));
      }
    }
  }

  /** The indices spanned, and the packets counted, since the last report. */
  function NewlySpanned(first: u16, xs: seq<Sample>): int {
    Highest(first, xs) - ReportedMax(first, xs)
  }

  function NewlyCounted(xs: seq<Sample>): int {
    Count(xs) + 1 - ReportedCount(xs)
  }

  /** Nothing is newly spanned without a packet. */
  lemma {:induction false} SpannedNeedsPacket(first: u16, xs: seq<Sample>)
    ensures NewlySpanned(first, xs) >= 0 && NewlyCounted(xs) >= 0
    ensures NewlyCounted(xs) == 0 ==> NewlySpanned(first, xs) == 0
  {
    if xs != [] {
      SpannedNeedsPacket(first, xs[..|xs| - 1]);
    }
  }

  lemma IntervalsFollow(s: Stats, first: u16, xs: seq<Sample>)
    requires Follows(s, first, Highest(first, xs), Count(xs) + 1) && Snapshots(s, first, xs)
    requires NewlySpanned(first, xs) < 0x1_0000_0000 && NewlyCounted(xs) < 0x1_0000_0000
    ensures ExpectedInterval(s) == NewlySpanned(first, xs) && ReceivedInterval(s) == NewlyCounted(xs)
  {
    SpannedNeedsPacket(first, xs);
    var max, prior := Highest(first, xs), ReportedMax(first, xs);
    FollowsCounts(s, first, max, Count(xs) + 1);
    WrapDifference32(max - first + 1, prior - first + 1);
    WrapDifference32(Count(xs) + 1, ReportedCount(xs));
    Fits(NewlySpanned(first, xs));
    Fits(NewlyCounted(xs));
  }

  /** `f` is the share of `spanned` indices without a packet, in 256ths rounded down, or 0 of nothing. */
  ghost predicate IsShare(f: nat, spanned: nat, counted: nat) {
    if spanned == 0 then f == 0
    else f * spanned <= 256 * SatSub(spanned, counted) < (f + 1) * spanned
  }

  lemma ReportsShare(s: Stats)
    requires ExpectedInterval(s) == 0 || ReceivedInterval(s) > 0
    ensures IsShare(Report(s).fractionLost, ExpectedInterval(s), ReceivedInterval(s))
  {
    CastExactIff(s);
    QuotientShare(ExpectedInterval(s), ReceivedInterval(s));
  }

  lemma QuotientShare(expected: nat, received: nat)
    ensures IsShare(Quotient(expected, received), expected, received)
  {
    if expected > 0 {
      QuotientFloor(expected, received);
    }
  }

  lemma FreshSnapshots(s: Stats, first: u16)
    requires s.initialized && s.seqProbation == 1 && first == Wrap16(s.maxSeq + 1)
    ensures Update(s, first).expectedPrior == 0 && Update(s, first).receivedPrior == 0
  {
  }

  /** Over every run of `ExtendedSequenceRefinement`, fewer than 2^32 of either since the last report: the fraction
      reported next is the share of newly spanned indices without a packet, in 256ths rounded down, or 0 when nothing
      is newly spanned. */
  lemma LossFractionReported(s: Stats, first: u16, xs: seq<Sample>)
    requires s.initialized && s.seqProbation == 1 && first == Wrap16(s.maxSeq + 1)
    requires Plausible(first, xs)
    requires NewlySpanned(first, xs) < 0x1_0000_0000 && NewlyCounted(xs) < 0x1_0000_0000
    ensures NewlySpanned(first, xs) >= 0 && NewlyCounted(xs) >= 0
    ensures IsShare(Report(AfterAll(Update(s, first), xs)).fractionLost, NewlySpanned(first, xs), NewlyCounted(xs))
  {
    var start := Update(s, first);
    ProbationEnds(s, first);
    FreshSnapshots(s, first);
    FollowAll(start, first, first, 1, xs);
    SnapshotsFollow(start, first, xs);
    IntervalsFollow(AfterAll(start, xs), first, xs);
    SpannedNeedsPacket(first, xs);
    ReportsShare(AfterAll(start, xs));
  }

  // ---------------------------------------------------------------- probation

  /** The source as it is after its packets so far, before probation ends. */
  function Arrivals(ns: seq<u16>): Stats {
    if ns == [] then NEW else Update(Arrivals(ns[..|ns| - 1]), ns[|ns| - 1])
  }

  predicate Succeeds(a: u16, b: u16) {
    b == Wrap16(a as int + 1)
  }

  /** Two packets in a row had consecutive numbers. */
  ghost predicate Sequential(ns: seq<u16>) {
    exists i :: 0 < i < |ns| && Succeeds(ns[i - 1], ns[i])
  }

  lemma SequentialAppend(ns: seq<u16>)
    requires |ns| > 1
    ensures Sequential(ns) <==> Sequential(ns[..|ns| - 1]) || Succeeds(ns[|ns| - 2], ns[|ns| - 1])
  {
    var init := ns[..|ns| - 1];
    if Sequential(init) {
      var i :| 0 < i < |init| && Succeeds(init[i - 1], init[i]);
      assert Succeeds(ns[i - 1], ns[i]);
    }
    if Sequential(ns) {
      var i :| 0 < i < |ns| && Succeeds(ns[i - 1], ns[i]);
      if i < |init| {
        assert Succeeds(init[i - 1], init[i]);
      }
    }
  }

  /** A source is taken for real exactly from the first two consecutive numbers on; until then the statistics only
      remember the last number. */
  lemma {:induction false} RealIffSequential(ns: seq<u16>)
    ensures var s := Arrivals(ns);
            && (s.initialized <==> ns != [])
            && (ns != [] ==> (s.seqProbation == 0 <==> Sequential(ns)))
            && (ns != [] && !Sequential(ns) ==> s.seqProbation == 1 && s.maxSeq == ns[|ns| - 1])
  {
    if ns != [] {
      RealIffSequential(ns[..|ns| - 1]);
      if |ns| > 1 {
        SequentialAppend(ns);
      }
    }
  }
}
