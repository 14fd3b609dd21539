// What the window aggregator promises, in terms of event lists: a live window
// is the list of events a process has produced since its window opened.
module Windows {
  import opened Arith
  import opened Records
  import opened Stats
  import opened Wire
  import opened Orders

  datatype Live = Live(comm: seq<U8>, start: int, end: int, events: seq<Stamped>)

  type Lives = map<U32, Live>

  // The window a pid's event lands in: the live one, expired or not, else a
  // new one named after this event's process.
  function Opened(lives: Lives, pid: U32, comm: seq<U8>, now: int, duration: int): Live {
    if pid in lives then lives[pid] else Live(CString(comm), now, now + duration, [])
  }

  function Received(lives: Lives, e: Event, now: int, duration: int): Lives {
    var w := Opened(lives, e.pid, e.comm, now, duration);
    lives[e.pid := w.(events := w.events + [Stamped(e, now)])]
  }

  predicate Expired(w: Live, now: int) {
    now > w.end
  }

  function ExpiredPids(lives: Lives, now: int): set<U32> {
    set p | p in lives && Expired(lives[p], now)
  }

  function Unexpired(lives: Lives, now: int): Lives {
    map p | p in lives && !Expired(lives[p], now) :: lives[p]
  }

  function CountOf(w: Live, k: Kind): nat {
    |Numbers(w.events, MainSeries(k))|
  }

  function TotalOf(w: Live, s: Series): U64 {
    Wrap64(Sum(Numbers(w.events, s)))
  }

  function TotalCount(tw: TimeWindow): U64 {
    Wrap64(tw.kernelLaunchCount + tw.memcpyCount + tw.memAllocCount + tw.streamSyncCount)
  }

  // tw reports window w: counts and totals modulo 2^64, maxima, exact means,
  // and the ratios derived from the reported numbers.
  ghost predicate Summarises(tw: TimeWindow, w: Live) {
    && tw.windowStartNs == w.start && tw.windowEndNs == w.end
    && tw.kernelLaunchCount == Wrap64(CountOf(w, Launches))
    && tw.memAllocCount == Wrap64(CountOf(w, Allocs))
    && tw.memcpyCount == Wrap64(CountOf(w, Copies))
    && tw.streamSyncCount == Wrap64(CountOf(w, Syncs))
    && IsMean(tw.avgThreadsPerKernel, Numbers(w.events, Threads))
    && IsMean(tw.avgBlocksPerKernel, Numbers(w.events, Blocks))
    && tw.maxThreadsPerKernel == MaxOf(Numbers(w.events, Threads))
    && tw.totalThreadsLaunched == TotalOf(w, Threads)
    && tw.totalMemAllocBytes == TotalOf(w, AllocBytes)
    && tw.totalMemcpyBytes == TotalOf(w, CopyBytes)
    && tw.htodBytes == TotalOf(w, HtodBytes)
    && tw.dtohBytes == TotalOf(w, DtohBytes)
    && IsMean(tw.avgMemAllocBytes, Numbers(w.events, AllocBytes))
    && IsMean(tw.avgMemcpyBytes, Numbers(w.events, CopyBytes))
    && IsMean(tw.avgSyncTimeNs, Numbers(w.events, SyncTime))
    && tw.maxSyncTimeNs == MaxOf(Numbers(w.events, SyncTime))
    && DerivedRatios(tw)
  }

  ghost predicate DerivedRatios(tw: TimeWindow) {
    var total := TotalCount(tw);
    var seconds := (tw.windowEndNs - tw.windowStartNs) as real / 1000000000.0;
    && tw.htodRatio == (if tw.totalMemcpyBytes > 0 then tw.htodBytes as real / tw.totalMemcpyBytes as real else 0.0)
    && tw.syncFraction == (if total > 0 then tw.streamSyncCount as real / total as real else 0.0)
    && (seconds > 0.0 ==>
          && tw.launchRate == tw.kernelLaunchCount as real / seconds
          && tw.memcpyRate == tw.memcpyCount as real / seconds
          && tw.allocRate == tw.memAllocCount as real / seconds)
  }

  // The event emitted for pid's expired window.
  ghost predicate Reports(ev: GpuEvent, pid: U32, w: Live) {
    && ev.pid == pid && ev.comm == w.comm && ev.eventType == "GPU_TIME_WINDOW"
    && ev.payload.WindowPayload? && Summarises(ev.payload.tw, w)
  }

  lemma ReportNames(ev: GpuEvent, pid: U32, w: Live)
    requires Reports(ev, pid, w)
    ensures ev.pid == pid && ev.comm == w.comm && ev.eventType == "GPU_TIME_WINDOW"
    ensures ev.payload.WindowPayload? && Summarises(ev.payload.tw, w)
  {
  }

  function PidsOf(events: seq<GpuEvent>): seq<U32> {
    seq(|events|, i requires 0 <= i < |events| => events[i].pid)
  }

  // Each event reports the window its pid had.
  ghost predicate AllReported(events: seq<GpuEvent>, lives: Lives) {
    forall i :: 0 <= i < |events| ==> events[i].pid in lives && Reports(events[i], events[i].pid, lives[events[i].pid])
  }

  // What a flush emits: one report for each expired window, in some order.
  ghost predicate FlushReports(events: seq<GpuEvent>, lives: Lives, now: int) {
    Listing(PidsOf(events), ExpiredPids(lives, now)) && AllReported(events, lives)
  }

  lemma NothingListed()
    ensures Listing(PidsOf([]), {})
  {
  }

  lemma OneMoreReported(events: seq<GpuEvent>, ev: GpuEvent, lives: Lives, pid: U32, pids: set<U32>)
    requires Listing(PidsOf(events), pids) && AllReported(events, lives)
    requires pid in lives && pid !in pids && Reports(ev, pid, lives[pid])
    ensures Listing(PidsOf(events + [ev]), pids + {pid}) && AllReported(events + [ev], lives)
  {
    assert PidsOf(events + [ev]) == PidsOf(events) + [pid];
    ListingAppend(PidsOf(events), pids, pid);
  }

  lemma ListedSize(events: seq<GpuEvent>, pids: set<U32>)
    requires Listing(PidsOf(events), pids)
    ensures events == [] <==> pids == {}
  {
    if events != [] {
      assert PidsOf(events)[0] in pids;
    } else {
      assert PidsOf(events) == [];
    }
  }

  // An event of a process without a window opens one at its time, under the name
  // it carries and for one duration; otherwise its window grows by it, ended or
  // not. No other window changes.
  lemma EventLandsInItsWindow(lives: Lives, e: Event, now: int, duration: int)
    ensures var after := Received(lives, e, now, duration);
            && after.Keys == lives.Keys + {e.pid}
            && (e.pid !in lives ==> after[e.pid] == Live(CString(e.comm), now, now + duration, [Stamped(e, now)]))
            && (e.pid in lives ==>
                  var w := lives[e.pid];
                  after[e.pid] == Live(w.comm, w.start, w.end, w.events + [Stamped(e, now)]))
            && forall p :: p in lives && p != e.pid ==> after[p] == lives[p]
  {
  }

  // A flush closes exactly the windows that ended before now.
  lemma FlushClosesTheEnded(lives: Lives, now: int)
    ensures forall p :: p in ExpiredPids(lives, now) <==> p in lives && lives[p].end < now
    ensures forall p :: p in Unexpired(lives, now) <==> p in lives && now <= lives[p].end
    ensures forall p :: p in Unexpired(lives, now) ==> Unexpired(lives, now)[p] == lives[p]
  {
  }

  // ---- what a report says, field by field ----------------------------------

  // Counts, totals and maxima.
  lemma ReportedTotals(tw: TimeWindow, w: Live)
    requires Summarises(tw, w)
    ensures tw.windowStartNs == w.start && tw.windowEndNs == w.end
    ensures tw.kernelLaunchCount == |Numbers(w.events, Threads)| % TWO_64
    ensures tw.memAllocCount == |Numbers(w.events, AllocBytes)| % TWO_64
    ensures tw.memcpyCount == |Numbers(w.events, CopyBytes)| % TWO_64
    ensures tw.streamSyncCount == |Numbers(w.events, SyncTime)| % TWO_64
    ensures tw.totalThreadsLaunched == Sum(Numbers(w.events, Threads)) % TWO_64
    ensures tw.totalMemAllocBytes == Sum(Numbers(w.events, AllocBytes)) % TWO_64
    ensures tw.totalMemcpyBytes == Sum(Numbers(w.events, CopyBytes)) % TWO_64
    ensures tw.htodBytes == Sum(Numbers(w.events, HtodBytes)) % TWO_64
    ensures tw.dtohBytes == Sum(Numbers(w.events, DtohBytes)) % TWO_64
    ensures tw.maxThreadsPerKernel == MaxOf(Numbers(w.events, Threads))
    ensures tw.maxSyncTimeNs == MaxOf(Numbers(w.events, SyncTime))
  {
  }

  // Means, zero for a kind without events.
  lemma ReportedMeans(tw: TimeWindow, w: Live)
    requires Summarises(tw, w) && |w.events| < TWO_64
    ensures MeanOf(tw.avgThreadsPerKernel, Numbers(w.events, Threads))
    ensures MeanOf(tw.avgBlocksPerKernel, Numbers(w.events, Blocks))
    ensures MeanOf(tw.avgMemAllocBytes, Numbers(w.events, AllocBytes))
    ensures MeanOf(tw.avgMemcpyBytes, Numbers(w.events, CopyBytes))
    ensures MeanOf(tw.avgSyncTimeNs, Numbers(w.events, SyncTime))
  {
    hide Numbers, Sum, MaxOf, CountOf, TotalOf, DerivedRatios, Mean;
    forall s: Series ensures |Numbers(w.events, s)| <= |w.events| { NumbersAreFew(w.events, s); }
    OfNothing(Threads);
    forall xs: seq<nat> ensures MeanOf(Mean(xs), xs) { MeanTimesCount(xs); }
  }

  ghost predicate MeanOf(avg: real, xs: seq<nat>) {
    if xs == [] then avg == 0.0 else avg * |xs| as real == Sum(xs) as real
  }

  lemma {:induction false} NumbersAreFew(es: seq<Stamped>, s: Series)
    ensures |Numbers(es, s)| <= |es|
  {
    if es != [] {
      NumbersAreFew(es[..|es| - 1], s);
    }
  }

  // Ratios of the wrapped totals, zero where there is nothing to divide by.
  lemma ReportedRatios(tw: TimeWindow, w: Live)
    requires Summarises(tw, w)
    ensures var copied := Sum(Numbers(w.events, CopyBytes)) % TWO_64;
            tw.htodRatio ==
              if copied > 0 then (Sum(Numbers(w.events, HtodBytes)) % TWO_64) as real / copied as real else 0.0
    ensures var syncs := |Numbers(w.events, SyncTime)| % TWO_64;
            var all := (|Numbers(w.events, Threads)| % TWO_64 + |Numbers(w.events, CopyBytes)| % TWO_64
                        + |Numbers(w.events, AllocBytes)| % TWO_64 + syncs) % TWO_64;
            tw.syncFraction == if all > 0 then syncs as real / all as real else 0.0
  {
    hide Numbers, Sum, MaxOf, Mean, IsMean;
  }

  // Rates per second of the window, from the reported counts.
  lemma ReportedRates(tw: TimeWindow, w: Live)
    requires Summarises(tw, w) && w.end > w.start
    ensures var seconds := (w.end - w.start) as real / 1000000000.0;
            && seconds > 0.0
            && tw.launchRate == (|Numbers(w.events, Threads)| % TWO_64) as real / seconds
            && tw.allocRate == (|Numbers(w.events, AllocBytes)| % TWO_64) as real / seconds
            && tw.memcpyRate == (|Numbers(w.events, CopyBytes)| % TWO_64) as real / seconds
  {
    hide Numbers, Sum, MaxOf, Mean, IsMean, TotalOf;
  }

  // ---- bounds on every reported window -----------------------------------

  // Means stay below maxima, and the directions add up to the copy total.
  lemma ReportedBounds(tw: TimeWindow, w: Live)
    requires Summarises(tw, w)
    ensures CountOf(w, Launches) < TWO_64 ==> tw.avgThreadsPerKernel <= tw.maxThreadsPerKernel as real
    ensures CountOf(w, Syncs) < TWO_64 ==> tw.avgSyncTimeNs <= tw.maxSyncTimeNs as real
    ensures Add64(tw.htodBytes, tw.dtohBytes) == tw.totalMemcpyBytes
  {
    hide Numbers, Sum, MaxOf, Mean, Wrap64, DerivedRatios;
    MeanAtMostMax(Numbers(w.events, Threads));
    MeanAtMostMax(Numbers(w.events, SyncTime));
    DirectionsAddUp(w);
  }

  lemma DirectionsAddUp(w: Live)
    ensures Add64(TotalOf(w, HtodBytes), TotalOf(w, DtohBytes)) == TotalOf(w, CopyBytes)
  {
    hide Numbers, Sum, Wrap64;
    var h, d := Sum(Numbers(w.events, HtodBytes)), Sum(Numbers(w.events, DtohBytes));
    CopiesSplitByDirection(w.events);
    Wrap64Add(h, d);
    Wrap64Add(d, TotalOf(w, HtodBytes));
  }

  // A mean times its count is the reported total, modulo 2^64.
  ghost predicate MeanMatchesTotal(avg: real, count: U64, total: U64) {
    Wrap64((avg * count as real).Floor) == total
  }

  lemma MeanTimesCountIsTotal(tw: TimeWindow, w: Live)
    requires Summarises(tw, w)
    ensures CountOf(w, Launches) < TWO_64 ==>
              MeanMatchesTotal(tw.avgThreadsPerKernel, tw.kernelLaunchCount, tw.totalThreadsLaunched)
    ensures CountOf(w, Allocs) < TWO_64 ==>
              MeanMatchesTotal(tw.avgMemAllocBytes, tw.memAllocCount, tw.totalMemAllocBytes)
    ensures CountOf(w, Copies) < TWO_64 ==>
              MeanMatchesTotal(tw.avgMemcpyBytes, tw.memcpyCount, tw.totalMemcpyBytes)
  {
    hide Numbers, Sum, MaxOf, IsMean, Wrap64, DerivedRatios, MeanMatchesTotal;
    MeanCountTotal(tw.avgThreadsPerKernel, Numbers(w.events, Threads));
    MeanCountTotal(tw.avgMemAllocBytes, Numbers(w.events, AllocBytes));
    MeanCountTotal(tw.avgMemcpyBytes, Numbers(w.events, CopyBytes));
  }

  lemma MeanCountTotal(avg: real, xs: seq<nat>)
    requires IsMean(avg, xs)
    ensures |xs| < TWO_64 ==> MeanMatchesTotal(avg, Wrap64(|xs|), Wrap64(Sum(xs)))
  {
    if |xs| < TWO_64 {
      assert Wrap64(|xs|) == |xs|;
      MeanTimesCount(xs);
      assert (avg * |xs| as real).Floor == Sum(xs);
    }
  }

  // The host-to-device ratio is a fraction exactly when the window's two
  // directions, each summed modulo 2^64, do not overflow together.
  lemma HtodRatioIsFractionIff(tw: TimeWindow, w: Live)
    requires Summarises(tw, w)
    ensures 0.0 <= tw.htodRatio <= 1.0 <==> TotalOf(w, HtodBytes) + TotalOf(w, DtohBytes) <= TWO_64
  {
    hide Numbers, Sum, MaxOf, Mean, IsMean, CountOf, TotalOf;
    DirectionsAddUp(w);
    assert Add64(tw.htodBytes, tw.dtohBytes) == tw.totalMemcpyBytes;
    RatioIsFractionIff(tw.htodBytes, tw.dtohBytes);
  }

  lemma SmallCopyTotals(w: Live)
    requires Sum(Numbers(w.events, CopyBytes)) < TWO_64
    ensures TotalOf(w, CopyBytes) == Sum(Numbers(w.events, CopyBytes))
    ensures TotalOf(w, HtodBytes) == Sum(Numbers(w.events, HtodBytes))
    ensures TotalOf(w, DtohBytes) == Sum(Numbers(w.events, DtohBytes))
    ensures TotalOf(w, HtodBytes) + TotalOf(w, DtohBytes) < TWO_64
  {
    hide Numbers, Sum;
    CopiesSplitByDirection(w.events);
  }

  // It is the exact share of the bytes copied to the device when fewer than
  // 2^64 bytes were copied in all.
  lemma HtodRatioIsExact(tw: TimeWindow, w: Live)
    requires Summarises(tw, w) && Sum(Numbers(w.events, CopyBytes)) < TWO_64
    ensures var all := Sum(Numbers(w.events, CopyBytes));
            all > 0 ==> tw.htodRatio == Sum(Numbers(w.events, HtodBytes)) as real / all as real
    ensures 0.0 <= tw.htodRatio <= 1.0
  {
    hide Numbers, Sum, MaxOf, Mean, IsMean, CountOf, TotalOf, TotalCount, Wrap64;
    SmallCopyTotals(w);
    HtodRatioIsFractionIff(tw, w);
  }

  lemma RatioIsFractionIff(h: U64, d: U64)
    ensures var total := Add64(h, d);
            0.0 <= (if total > 0 then h as real / total as real else 0.0) <= 1.0 <==> h + d <= TWO_64
  {
    var total := Add64(h, d);
    assert total == h + d || total == h + d - TWO_64;
    if total > 0 {
      AtMostOneIff(h, total);
    }
  }

  lemma AtMostOneIff(a: nat, b: nat)
    requires b > 0
    ensures 0.0 <= a as real / b as real
    ensures a as real / b as real <= 1.0 <==> a <= b
  {
    assert (a as real / b as real) * b as real == a as real;
  }

  lemma CountsAreExact(tw: TimeWindow, w: Live)
    requires Summarises(tw, w) && |w.events| < TWO_64
    ensures TotalCount(tw) == |w.events|
    ensures tw.streamSyncCount == CountOf(w, Syncs) <= |w.events|
  {
    hide Numbers, Sum, MaxOf, IsMean, DerivedRatios, Wrap64;
    KindsPartition(w.events);
    SmallCounts(CountOf(w, Launches), CountOf(w, Copies), CountOf(w, Allocs), CountOf(w, Syncs));
  }

  lemma SmallCounts(a: nat, b: nat, c: nat, d: nat)
    requires a + b + c + d < TWO_64
    ensures Wrap64(Wrap64(a) + Wrap64(b) + Wrap64(c) + Wrap64(d)) == a + b + c + d
    ensures Wrap64(d) == d
  {
    assert Wrap64(a) == a && Wrap64(b) == b && Wrap64(c) == c && Wrap64(d) == d;
  }

  // A window of fewer than 2^64 events reports the exact sync fraction.
  lemma SyncFractionIsExact(tw: TimeWindow, w: Live)
    requires Summarises(tw, w) && |w.events| < TWO_64
    ensures w.events != [] ==> tw.syncFraction == CountOf(w, Syncs) as real / |w.events| as real
    ensures 0.0 <= tw.syncFraction <= 1.0
  {
    hide Numbers, Sum, MaxOf, IsMean, CountOf, TotalOf, TotalCount, Wrap64;
    CountsAreExact(tw, w);
    if w.events != [] {
      AtMostOneIff(CountOf(w, Syncs), |w.events|);
    }
  }

  // Copies of a byte to the device and b bytes back, in one window.
  function TwoCopies(comm: Comm, a: U64, b: U64): seq<Stamped> {
    [Stamped(Memcpy(0, comm, a, DIR_HTOD), 0), Stamped(Memcpy(0, comm, b, DIR_DTOH), 0)]
  }

  lemma TwoCopiesTotals(comm: Comm, a: U64, b: U64)
    ensures Sum(Numbers(TwoCopies(comm, a, b), HtodBytes)) == a
    ensures Sum(Numbers(TwoCopies(comm, a, b), DtohBytes)) == b
  {
    var es := TwoCopies(comm, a, b);
    assert es[..1] == [es[0]];
    SumNumbersAppend([], es[0], HtodBytes);
    SumNumbersAppend([], es[0], DtohBytes);
    assert [] + [es[0]] == es[..1] && es[..1] + [es[1]] == es;
    SumNumbersAppend(es[..1], es[1], HtodBytes);
    SumNumbersAppend(es[..1], es[1], DtohBytes);
  }

  // A concrete window whose reported ratio exceeds one: two copies that
  // together wrap the 64-bit total.
  lemma HtodRatioCanExceedOne(comm: Comm, tw: TimeWindow)
    requires Summarises(tw, Live(CString(comm), 0, 1, TwoCopies(comm, TWO_64 - 1, 2)))
    ensures tw.htodRatio > 1.0
  {
    hide Numbers, Sum, MaxOf, IsMean, CountOf, DerivedRatios;
    var w := Live(CString(comm), 0, 1, TwoCopies(comm, TWO_64 - 1, 2));
    TwoCopiesTotals(comm, TWO_64 - 1, 2);
    HtodRatioIsFractionIff(tw, w);
    RatioNonNegative(tw, w);
  }

  lemma RatioNonNegative(tw: TimeWindow, w: Live)
    requires Summarises(tw, w)
    ensures tw.htodRatio >= 0.0
  {
    hide Numbers, Sum, MaxOf, Mean, IsMean, CountOf, TotalOf;
    if tw.totalMemcpyBytes > 0 {
      AtMostOneIff(tw.htodBytes, tw.totalMemcpyBytes);
    }
  }
}
