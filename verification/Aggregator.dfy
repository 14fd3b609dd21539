// The window aggregator: one mutable fingerprint per process, updated in place
// and flushed once its window has ended.
module Aggregator {
  import opened Wrappers
  import opened Arith
  import opened Records
  import opened Stats
  import opened Wire
  import opened Orders
  import opened Windows

  function Max(a: U64, b: U64): U64 {
    if a > b then a else b
  }

  class GPUFingerprint {
    const pid: U32
    const comm: seq<U8>
    const windowStart: int
    const windowEnd: int

    var kernelLaunchCount: U64
    var memAllocCount: U64
    var memcpyCount: U64
    var streamSyncCount: U64

    var avgThreadsPerKernel: real
    var maxThreadsPerKernel: U64
    var avgBlocksPerKernel: real
    var totalThreadsLaunched: U64

    var totalMemAllocBytes: U64
    var avgMemAllocBytes: real
    var totalMemcpyBytes: U64
    var avgMemcpyBytes: real
    var htodBytes: U64
    var dtohBytes: U64
    var htodRatio: real

    var avgSyncTimeNs: real
    var maxSyncTimeNs: U64
    var syncFraction: real

    var launchRate: real
    var memcpyRate: real
    var allocRate: real

    // The fields hold the statistics of exactly w's events.
    ghost predicate Represents(p: U32, w: Live)
      reads this
    {
      && pid == p && comm == w.comm && windowStart == w.start && windowEnd == w.end
      && LaunchFields(Numbers(w.events, Threads), Numbers(w.events, Blocks))
      && AllocFields(Numbers(w.events, AllocBytes))
      && CopyFields(Numbers(w.events, CopyBytes), Numbers(w.events, HtodBytes), Numbers(w.events, DtohBytes))
      && SyncFields(Numbers(w.events, SyncTime))
      && htodRatio == syncFraction == launchRate == memcpyRate == allocRate == 0.0
    }

    ghost predicate LaunchFields(threads: seq<nat>, blocks: seq<nat>)
      reads `kernelLaunchCount, `totalThreadsLaunched, `maxThreadsPerKernel, `avgThreadsPerKernel, `avgBlocksPerKernel
    {
      && kernelLaunchCount == Wrap64(|threads|) && |blocks| == |threads|
      && totalThreadsLaunched == Wrap64(Sum(threads))
      && maxThreadsPerKernel == MaxOf(threads)
      && IsMean(avgThreadsPerKernel, threads)
      && IsMean(avgBlocksPerKernel, blocks)
    }

    ghost predicate AllocFields(bytes: seq<nat>)
      reads `memAllocCount, `totalMemAllocBytes, `avgMemAllocBytes
    {
      && memAllocCount == Wrap64(|bytes|)
      && totalMemAllocBytes == Wrap64(Sum(bytes))
      && IsMean(avgMemAllocBytes, bytes)
    }

    ghost predicate CopyFields(bytes: seq<nat>, htod: seq<nat>, dtoh: seq<nat>)
      reads `memcpyCount, `totalMemcpyBytes, `avgMemcpyBytes, `htodBytes, `dtohBytes
    {
      && memcpyCount == Wrap64(|bytes|)
      && totalMemcpyBytes == Wrap64(Sum(bytes))
      && IsMean(avgMemcpyBytes, bytes)
      && htodBytes == Wrap64(Sum(htod))
      && dtohBytes == Wrap64(Sum(dtoh))
    }

    ghost predicate SyncFields(times: seq<nat>)
      reads `streamSyncCount, `maxSyncTimeNs, `avgSyncTimeNs
    {
      && streamSyncCount == Wrap64(|times|)
      && maxSyncTimeNs == MaxOf(times)
      && IsMean(avgSyncTimeNs, times)
    }

    constructor (pid: U32, comm: seq<U8>, now: int, duration: int)
      ensures Represents(pid, Live(comm, now, now + duration, []))
    {
      this.pid, this.comm := pid, comm;
      windowStart, windowEnd := now, now + duration;
      kernelLaunchCount, memAllocCount, memcpyCount, streamSyncCount := 0, 0, 0, 0;
      avgThreadsPerKernel, maxThreadsPerKernel, avgBlocksPerKernel, totalThreadsLaunched := 0.0, 0, 0.0, 0;
      totalMemAllocBytes, avgMemAllocBytes, totalMemcpyBytes, avgMemcpyBytes := 0, 0.0, 0, 0.0;
      htodBytes, dtohBytes, htodRatio := 0, 0, 0.0;
      avgSyncTimeNs, maxSyncTimeNs, syncFraction := 0.0, 0, 0.0;
      launchRate, memcpyRate, allocRate := 0.0, 0.0, 0.0;
    }

    lemma Bounds(p: U32, w: Live)
      requires Represents(p, w)
      ensures windowEnd == w.end
    {
    }

    // In a live window too, means stay below maxima and the directions add up
    // to the copy total.
    lemma LiveBounds(p: U32, w: Live)
      requires Represents(p, w)
      ensures CountOf(w, Launches) < TWO_64 ==> avgThreadsPerKernel <= maxThreadsPerKernel as real
      ensures CountOf(w, Syncs) < TWO_64 ==> avgSyncTimeNs <= maxSyncTimeNs as real
      ensures Add64(htodBytes, dtohBytes) == totalMemcpyBytes
    {
      hide Numbers, Sum, MaxOf, Mean, Wrap64;
      MeanAtMostMax(Numbers(w.events, Threads));
      MeanAtMostMax(Numbers(w.events, SyncTime));
      DirectionsAddUp(w);
    }

    // One event's effect on the fields, as Update's type switch performs it.
    method Record(e: Event, ghost p: U32, ghost w: Live, ghost now: int)
      requires Represents(p, w)
      modifies this
      ensures Represents(p, w.(events := w.events + [Stamped(e, now)]))
    {
      hide Numbers, LaunchFields, AllocFields, CopyFields, SyncFields;
      ghost var x := Stamped(e, now);
      NumbersAppend(w.events, x, Threads);
      NumbersAppend(w.events, x, Blocks);
      NumbersAppend(w.events, x, AllocBytes);
      NumbersAppend(w.events, x, CopyBytes);
      NumbersAppend(w.events, x, HtodBytes);
      NumbersAppend(w.events, x, DtohBytes);
      NumbersAppend(w.events, x, SyncTime);
      match e
      case KernelLaunch(_, _, _, _, _, _, _, _, _, _, _) =>
        RecordLaunch(e, Numbers(w.events, Threads), Numbers(w.events, Blocks));
      case MemAlloc(_, _, n) =>
        RecordAlloc(n, Numbers(w.events, AllocBytes));
      case Memcpy(_, _, n, kind) =>
        RecordCopy(n, kind, Numbers(w.events, CopyBytes), Numbers(w.events, HtodBytes), Numbers(w.events, DtohBytes));
      case StreamSync(_, _, _, _, delta) =>
        RecordSync(delta, Numbers(w.events, SyncTime));
    }

    method RecordLaunch(e: Event, ghost threads: seq<nat>, ghost blockCounts: seq<nat>)
      requires e.KernelLaunch?
      requires LaunchFields(threads, blockCounts)
      modifies `kernelLaunchCount, `totalThreadsLaunched, `avgThreadsPerKernel, `maxThreadsPerKernel
      modifies `avgBlocksPerKernel
      ensures LaunchFields(threads + [e.totalThreads], blockCounts + [Launch.Blocks(e)])
    {
      hide Wrap64, Add64, IsMean, RunningMean, MaxOf, Sum;
      RunningMeanStep(avgThreadsPerKernel, threads, e.totalThreads);
      RunningMeanStep(avgBlocksPerKernel, blockCounts, Launch.Blocks(e));
      SumAppend(threads, e.totalThreads);
      MaxAppend(threads, e.totalThreads);
      Add64Wrap(Sum(threads), e.totalThreads);
      Add64Wrap(|threads|, 1);
      kernelLaunchCount := Add64(kernelLaunchCount, 1);
      var totalThreads := e.totalThreads;
      totalThreadsLaunched := Add64(totalThreadsLaunched, totalThreads);
      avgThreadsPerKernel := RunningMean(avgThreadsPerKernel, kernelLaunchCount, totalThreads);
      maxThreadsPerKernel := Max(maxThreadsPerKernel, totalThreads);
      var blocks := Mul32(Mul32(e.gridx, e.gridy), e.gridz);
      avgBlocksPerKernel := RunningMean(avgBlocksPerKernel, kernelLaunchCount, blocks);
    }

    method RecordAlloc(n: U64, ghost bytes: seq<nat>)
      requires AllocFields(bytes)
      modifies `memAllocCount, `totalMemAllocBytes, `avgMemAllocBytes
      ensures AllocFields(bytes + [n])
    {
      hide Wrap64, Add64, IsMean, RunningMean, MaxOf, Sum;
      RunningMeanStep(avgMemAllocBytes, bytes, n);
      SumAppend(bytes, n);
      Add64Wrap(Sum(bytes), n);
      Add64Wrap(|bytes|, 1);
      memAllocCount := Add64(memAllocCount, 1);
      totalMemAllocBytes := Add64(totalMemAllocBytes, n);
      avgMemAllocBytes := RunningMean(avgMemAllocBytes, memAllocCount, n);
    }

    method RecordCopy(n: U64, kind: U8, ghost bytes: seq<nat>, ghost htod: seq<nat>, ghost dtoh: seq<nat>)
      requires CopyFields(bytes, htod, dtoh)
      modifies `memcpyCount, `totalMemcpyBytes, `avgMemcpyBytes, `htodBytes, `dtohBytes
      ensures kind == DIR_HTOD ==> CopyFields(bytes + [n], htod + [n], dtoh)
      ensures kind != DIR_HTOD ==> CopyFields(bytes + [n], htod, dtoh + [n])
    {
      hide Wrap64, Add64, IsMean, RunningMean, MaxOf, Sum;
      RunningMeanStep(avgMemcpyBytes, bytes, n);
      SumAppend(bytes, n);
      SumAppend(htod, n);
      SumAppend(dtoh, n);
      Add64Wrap(Sum(bytes), n);
      Add64Wrap(Sum(htod), n);
      Add64Wrap(Sum(dtoh), n);
      Add64Wrap(|bytes|, 1);
      memcpyCount := Add64(memcpyCount, 1);
      totalMemcpyBytes := Add64(totalMemcpyBytes, n);
      avgMemcpyBytes := RunningMean(avgMemcpyBytes, memcpyCount, n);
      if kind == DIR_HTOD {
        htodBytes := Add64(htodBytes, n);
      } else {
        dtohBytes := Add64(dtohBytes, n);
      }
    }

    method RecordSync(delta: U64, ghost times: seq<nat>)
      requires SyncFields(times)
      modifies `streamSyncCount, `avgSyncTimeNs, `maxSyncTimeNs
      ensures SyncFields(times + [delta])
    {
      hide Wrap64, Add64, IsMean, RunningMean, MaxOf, Sum;
      RunningMeanStep(avgSyncTimeNs, times, delta);
      MaxAppend(times, delta);
      Add64Wrap(|times|, 1);
      streamSyncCount := Add64(streamSyncCount, 1);
      avgSyncTimeNs := RunningMean(avgSyncTimeNs, streamSyncCount, delta);
      maxSyncTimeNs := Max(maxSyncTimeNs, delta);
    }

    // Fills in the derived ratios and builds the message for an ended window.
    method Report(ghost p: U32, ghost w: Live) returns (ev: GpuEvent)
      requires Represents(p, w)
      modifies this
      ensures Reports(ev, p, w)
    {
      hide Numbers, Sum, MaxOf, IsMean, Wrap64;
      var duration := (windowEnd - windowStart) as real / 1000000000.0;
      if totalMemcpyBytes > 0 {
        htodRatio := htodBytes as real / totalMemcpyBytes as real;
      }
      var totalEvents := Wrap64(kernelLaunchCount + memcpyCount + memAllocCount + streamSyncCount);
      if totalEvents > 0 {
        syncFraction := streamSyncCount as real / totalEvents as real;
      }
      if duration > 0.0 {
        launchRate := kernelLaunchCount as real / duration;
        memcpyRate := memcpyCount as real / duration;
        allocRate := memAllocCount as real / duration;
      }
      var tw := TimeWindow(
        windowStart, windowEnd,
        kernelLaunchCount, memAllocCount, memcpyCount, streamSyncCount,
        avgThreadsPerKernel, avgBlocksPerKernel, maxThreadsPerKernel, totalThreadsLaunched,
        totalMemAllocBytes, totalMemcpyBytes, htodBytes, dtohBytes, htodRatio,
        avgMemAllocBytes, avgMemcpyBytes, avgSyncTimeNs, maxSyncTimeNs, syncFraction,
        launchRate, memcpyRate, allocRate);
      ev := GpuEvent(pid, comm, "GPU_TIME_WINDOW", WindowPayload(tw));
    }
  }

  class GPUAggregator {
    var windows: map<U32, GPUFingerprint>
    const windowDuration: int
    var lastFlush: int

    // The same windows as event lists.
    ghost var lives: Lives

    ghost predicate Valid()
      reads `windows, `lives, windows.Values
    {
      && windowDuration > 0
      && windows.Keys == lives.Keys
      && (forall p, q :: p in windows && q in windows && windows[p] == windows[q] ==> p == q)
      && (forall p :: p in windows ==> windows[p].Represents(p, lives[p]))
    }

    constructor (window: int, now: int)
      requires window > 0
      ensures Valid() && windowDuration == window && lives == map[] && windows == map[] && lastFlush == now
    {
      windows := map[];
      windowDuration := window;
      lastFlush := now;
      lives := map[];
    }

    method EnsureWindow(pid: U32, comm: seq<U8>, now: int) returns (win: GPUFingerprint)
      requires Valid()
      modifies this
      ensures Valid() && lastFlush == old(lastFlush)
      ensures pid in windows && win == windows[pid]
      ensures win in old(windows.Values) || fresh(win)
      ensures lives == old(lives)[pid := Opened(old(lives), pid, comm, now, windowDuration)]
      ensures windows == old(windows)[pid := win]
    {
      hide GPUFingerprint.Represents;
      if pid !in windows {
        win := new GPUFingerprint(pid, CString(comm), now, windowDuration);
        windows := windows[pid := win];
        lives := lives[pid := Live(CString(comm), now, now + windowDuration, [])];
      } else {
        win := windows[pid];
        assert windows == windows[pid := win];
        assert lives == lives[pid := lives[pid]];
      }
    }

    method Update(ev: Incoming, now: int)
      requires Valid()
      modifies this, windows.Values
      ensures Valid() && lastFlush == old(lastFlush)
      ensures fresh(windows.Values - old(windows.Values))
      ensures lives == match ev
                       case Gpu(e) => Received(old(lives), e, now, windowDuration)
                       case Foreign => old(lives)
    {
      hide Valid;
      match ev
      case Gpu(e) =>
        var w := EnsureWindow(e.pid, e.comm, now);
        Count(w, e, now);
      case Foreign =>
    }

    // Records one event in its live window.
    method Count(w: GPUFingerprint, e: Event, now: int)
      requires Valid() && e.pid in windows && w == windows[e.pid]
      modifies `lives, w
      ensures Valid()
      ensures e.pid in old(lives)
      ensures var l := old(lives)[e.pid];
              lives == old(lives)[e.pid := l.(events := l.events + [Stamped(e, now)])]
    {
      hide GPUFingerprint.Represents;
      ghost var l := lives[e.pid];
      w.Record(e, e.pid, l, now);
      lives := lives[e.pid := l.(events := l.events + [Stamped(e, now)])];
    }

    lemma KeysAndBounds()
      requires Valid()
      ensures windows.Keys == lives.Keys
      ensures forall p :: p in windows ==> windows[p].windowEnd == lives[p].end
    {
      forall p | p in windows ensures windows[p].windowEnd == lives[p].end {
        windows[p].Bounds(p, lives[p]);
      }
    }

    // Reports one ended window and deletes it.
    method Close(pid: U32) returns (event: GpuEvent)
      requires Valid() && pid in windows
      modifies `windows, `lives, windows[pid]
      ensures Valid()
      ensures pid in old(lives) && Reports(event, pid, old(lives)[pid])
      ensures windows == old(windows) - {pid} && lives == old(lives) - {pid}
    {
      hide GPUFingerprint.Represents, Reports;
      event := windows[pid].Report(pid, lives[pid]);
      windows := windows - {pid};
      lives := lives - {pid};
    }

    // Visits the windows in any order, as ranging over a Go map does.
    method Flush(now: int) returns (batch: Option<GpuBatch>)
      requires Valid()
      modifies this, windows.Values
      ensures Valid()
      ensures lives == Unexpired(old(lives), now)
      ensures windows == map p | p in old(windows) && !Expired(old(lives)[p], now) :: old(windows)[p]
      ensures batch == None <==> ExpiredPids(old(lives), now) == {}
      ensures batch.Some? ==> batch.value.kind == "gpu_time_window" && FlushReports(batch.value.batch, old(lives), now)
      ensures lastFlush == if batch == None then old(lastFlush) else now
    {
      hide Valid, Reports, Listing, PidsOf;
      var events: seq<GpuEvent> := [];
      ghost var lives0, windows0, done: set<U32>, gone: set<U32> := lives, windows, {}, {};
      KeysAndBounds();
      NothingListed();
      var todo := windows.Keys;
      while todo != {}
        invariant Valid() && lastFlush == old(lastFlush)
        invariant todo == windows0.Keys - done && done <= windows0.Keys
        invariant gone == set p | p in done && Expired(lives0[p], now)
        invariant windows == windows0 - gone && lives == lives0 - gone
        invariant Listing(PidsOf(events), gone)
        invariant AllReported(events, lives0)
        decreases todo
      {
        var pid :| pid in todo;
        todo := todo - {pid};
        done := done + {pid};
        KeysAndBounds();
        var w := windows[pid];
        if now > w.windowEnd {
          var event := Close(pid);
          OneMoreReported(events, event, lives0, pid, gone);
          events := events + [event];
          gone := gone + {pid};
        }
      }
      assert gone == ExpiredPids(lives0, now);
      ListedSize(events, gone);
      if |events| == 0 {
        return None;
      }
      lastFlush := now;
      batch := Some(GpuBatch("gpu_time_window", events));
    }
  }
}
