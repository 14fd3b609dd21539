// What the telemetry invariant means for whole runs.
module Guarantees {
  import opened Arith
  import opened Records
  import opened Stats
  import opened Wire
  import opened Windows
  import opened TimeSeries
  import opened Telemetry

  // ---- counting -------------------------------------------------------------

  // Events of one process and kind.
  function CountIn(es: seq<Event>, pid: U32, k: Kind): nat {
    if es == [] then 0
    else
      var e := es[|es| - 1];
      CountIn(es[..|es| - 1], pid, k) + if e.pid == pid && KindOf(e) == k then 1 else 0
  }

  lemma {:induction false} CountConcat(a: seq<Event>, b: seq<Event>, pid: U32, k: Kind)
    ensures CountIn(a + b, pid, k) == CountIn(a, pid, k) + CountIn(b, pid, k)
  {
    if b == [] {
      assert a + b == a;
    } else {
      CountConcat(a, b[..|b| - 1], pid, k);
      assert (a + b)[..|a + b| - 1] == a + b[..|b| - 1];
    }
  }

  lemma TakeOut(b: seq<Event>, e: Event) returns (l: seq<Event>, r: seq<Event>)
    requires e in multiset(b)
    ensures b == l + [e] + r && multiset(l + r) == multiset(b) - multiset{e}
  {
    var i :| 0 <= i < |b| && b[i] == e;
    l, r := b[..i], b[i + 1..];
    assert b == l + [e] + r;
  }

  // A count does not depend on the order.
  lemma {:induction false} CountPermutation(a: seq<Event>, b: seq<Event>, pid: U32, k: Kind)
    requires multiset(a) == multiset(b)
    ensures CountIn(a, pid, k) == CountIn(b, pid, k)
  {
    if a == [] {
      assert |multiset(b)| == 0;
    } else {
      hide CountIn;
      var init, e := a[..|a| - 1], a[|a| - 1];
      assert a == init + [e];
      var l, r := TakeOut(b, e);
      assert multiset(l + r) == multiset(init);
      CountPermutation(init, l + r, pid, k);
      CountConcat(l + [e], r, pid, k);
      CountConcat(l, [e], pid, k);
      CountConcat(l, r, pid, k);
      CountConcat(init, [e], pid, k);
    }
  }

  lemma {:induction false} CountDelivered(es: seq<Stamped>, pid: U32, k: Kind)
    ensures CountIn(Events(es), pid, k) == |Numbers(ForPid(es, pid), MainSeries(k))|
  {
    if es == [] {
      assert Events(es) == [];
    } else {
      hide CountIn, ForPid, Numbers, Contributes, KindOf, Events;
      var init, x := es[..|es| - 1], es[|es| - 1];
      CountDelivered(init, pid, k);
      assert es == init + [x];
      EventsAppend(init, x);
      CountAppend(Events(init), x.event, pid, k);
      ForPidAppend(init, x, pid);
      NumbersAppend(ForPid(init, pid), x, MainSeries(k));
      KindContributes(x.event, k);
    }
  }

  lemma CountAppend(es: seq<Event>, e: Event, pid: U32, k: Kind)
    ensures CountIn(es + [e], pid, k) == CountIn(es, pid, k) + if e.pid == pid && KindOf(e) == k then 1 else 0
  {
    assert (es + [e])[..|es|] == es;
  }

  lemma KindContributes(e: Event, k: Kind)
    ensures Contributes(e, MainSeries(k)) <==> KindOf(e) == k
  {
  }

  // The sum of the counts pid's reported windows hold.
  function ReportedCount(reports: seq<Closed>, pid: U32, k: Kind): nat {
    if reports == [] then 0
    else
      var c := reports[|reports| - 1];
      ReportedCount(reports[..|reports| - 1], pid, k) + if c.pid == pid then CountOf(c.window, k) else 0
  }

  function LiveCount(lives: Lives, pid: U32, k: Kind): nat {
    if pid in lives then CountOf(lives[pid], k) else 0
  }

  lemma {:induction false} ReportedCountIs(reports: seq<Closed>, pid: U32, k: Kind)
    ensures ReportedCount(reports, pid, k) == |Numbers(Reported(reports, pid), MainSeries(k))|
  {
    if reports != [] {
      var init, c := reports[..|reports| - 1], reports[|reports| - 1];
      ReportedCountIs(init, pid, k);
      assert reports == init + [c];
      ReportedAppend(init, c, pid);
      NumbersConcat(Reported(init, pid), c.window.events, MainSeries(k));
    }
  }

  lemma DeliveredCount(s: State, pid: U32, k: Kind)
    requires WindowsPartition(s)
    ensures CountIn(Events(s.toAggregator), pid, k)
         == ReportedCount(s.reports, pid, k) + LiveCount(s.lives, pid, k)
  {
    hide CountIn, Numbers, Reported, ForPid;
    CountDelivered(s.toAggregator, pid, k);
    ReportedCountIs(s.reports, pid, k);
    NumbersConcat(Reported(s.reports, pid), Pending(s.lives, pid), MainSeries(k));
    NoNumbers(MainSeries(k));
  }

  lemma NoNumbers(s: Series)
    ensures Numbers([], s) == []
    ensures Sum(Numbers([], s)) == 0
  {
  }

  // What the counts count.
  lemma CountsCount(es: seq<Event>, e: Event, reports: seq<Closed>, c: Closed, lives: Lives, pid: U32, k: Kind)
    ensures CountIn([], pid, k) == 0 && ReportedCount([], pid, k) == 0
    ensures CountIn(es + [e], pid, k) == CountIn(es, pid, k) + if e.pid == pid && KindOf(e) == k then 1 else 0
    ensures ReportedCount(reports + [c], pid, k)
         == ReportedCount(reports, pid, k) + if c.pid == pid then |Numbers(c.window.events, MainSeries(k))| else 0
    ensures LiveCount(lives, pid, k) == if pid in lives then |Numbers(lives[pid].events, MainSeries(k))| else 0
  {
    assert (es + [e])[..|es|] == es && (reports + [c])[..|reports|] == reports;
  }

  // Conservation over every run: for each process and kind, the records
  // submitted are those in the ring, in the reader's hand, counted by the live
  // window, or counted by a reported one.
  lemma EveryRecordAccountedFor(start: int, run: seq<Action>, duration: int, pid: U32, k: Kind)
    requires Allowed(Init(start), run, duration)
    ensures var s := After(Init(start), run, duration);
            CountIn(s.submitted, pid, k) ==
              CountIn(InRing(s.ring), pid, k) + CountIn(InHand(s.hand), pid, k) +
              LiveCount(s.lives, pid, k) + ReportedCount(s.reports, pid, k)
  {
    hide CountIn, InRing, InHand, Events, Init, After, Allowed, Reported, ForPid, Lossless, InStep, Timeline;
    InitInv(start, duration);
    RunsKeepInv(Init(start), run, duration);
    var s := After(Init(start), run, duration);
    var r, h, d := InRing(s.ring), InHand(s.hand), Events(s.toAggregator);
    assert multiset(s.submitted) == multiset(r + h + d);
    CountPermutation(s.submitted, r + h + d, pid, k);
    CountConcat(r + h, d, pid, k);
    CountConcat(r, h, pid, k);
    DeliveredCount(s, pid, k);
  }

  // ---- order ------------------------------------------------------------------

  // Over every run, and for every process: the events of its reported windows
  // followed by those of its live one are exactly the events delivered to the
  // aggregator, in arrival order; its flushed tokens followed by its buffer are
  // exactly the tokens of the events delivered to the time series, in arrival
  // order; and a process has a buffer if and only if it has a name.
  lemma NothingIsReordered(start: int, run: seq<Action>, duration: int, pid: U32)
    requires Allowed(Init(start), run, duration)
    ensures var s := After(Init(start), run, duration);
            && Reported(s.reports, pid) + Pending(s.lives, pid) == ForPid(s.toAggregator, pid)
            && TokensOf(s.tokens, pid) + Buffered(s.buffers, pid) == TokensFor(ForPid(s.toSeries, pid))
            && (pid in s.buffers <==> pid in s.comms)
  {
    hide Init, After, Allowed, RecordsConserved, InStep, Timeline;
    hide Reported, ForPid, Pending, TokensOf, Buffered, TokensFor;
    InitInv(start, duration);
    RunsKeepInv(Init(start), run, duration);
    var s := After(Init(start), run, duration);
    assert pid in s.buffers.Keys <==> pid in s.comms.Keys;
  }

  // ---- the collectors agree ---------------------------------------------------

  // A token that belongs to a series of numbers, and the number it holds. The
  // block counts are not in the time series.
  predicate TokenIn(tk: Token, s: Series) {
    match s
    case Threads => tk.eventType == EVENT_GPU_KERNEL_LAUNCH
    case Blocks => false
    case AllocBytes => tk.eventType == EVENT_GPU_MALLOC
    case CopyBytes => tk.eventType == EVENT_GPU_MEMCPY
    case HtodBytes => tk.eventType == EVENT_GPU_MEMCPY && tk.dir == DIR_HTOD
    case DtohBytes => tk.eventType == EVENT_GPU_MEMCPY && tk.dir == DIR_DTOH
    case SyncTime => tk.eventType == EVENT_GPU_STREAM_SYNC
  }

  function TokenCount(tokens: seq<Token>, s: Series): nat {
    if tokens == [] then 0
    else TokenCount(tokens[..|tokens| - 1], s) + if TokenIn(tokens[|tokens| - 1], s) then 1 else 0
  }

  function TokenSum(tokens: seq<Token>, s: Series): real {
    if tokens == [] then 0.0
    else
      var tk := tokens[|tokens| - 1];
      TokenSum(tokens[..|tokens| - 1], s) + if TokenIn(tk, s) then tk.value else 0.0
  }

  lemma TokenHoldsNumber(e: Event, at: int, s: Series)
    requires s != Blocks
    ensures TokenIn(TokenOf(e, at), s) <==> Contributes(e, s)
    ensures Contributes(e, s) ==> TokenOf(e, at).value == Number(e, s) as real
  {
  }

  lemma {:induction false} TokensHoldNumbers(es: seq<Stamped>, s: Series)
    requires s != Blocks
    ensures TokenCount(TokensFor(es), s) == |Numbers(es, s)|
    ensures TokenSum(TokensFor(es), s) == Sum(Numbers(es, s)) as real
    ensures forall i :: 0 <= i < |es| ==> TokensFor(es)[i].timestamp == es[i].at
  {
    if es != [] {
      var init, x := es[..|es| - 1], es[|es| - 1];
      TokensHoldNumbers(init, s);
      assert es == init + [x];
      TokensForAppend(init, x);
      assert TokensFor(es)[..|init|] == TokensFor(init);
      TokenHoldsNumber(x.event, x.at, s);
      NumbersAppend(init, x, s);
      SumNumbersAppend(init, x, s);
    }
  }

  lemma {:induction false} SameEventsSameNumbers(a: seq<Stamped>, b: seq<Stamped>, pid: U32, s: Series)
    requires Events(a) == Events(b)
    ensures Numbers(ForPid(a, pid), s) == Numbers(ForPid(b, pid), s)
  {
    assert |Events(a)| == |a| && |Events(b)| == |b|;
    if a != [] {
      var a', b', x, y := a[..|a| - 1], b[..|b| - 1], a[|a| - 1], b[|b| - 1];
      assert Events(a') == Events(a)[..|a'|] && Events(b') == Events(b)[..|b'|];
      assert Events(a)[|a| - 1] == x.event && Events(b)[|b| - 1] == y.event;
      SameEventsSameNumbers(a', b', pid, s);
      assert a == a' + [x] && b == b' + [y];
      ForPidAppend(a', x, pid);
      ForPidAppend(b', y, pid);
      NumbersAppend(ForPid(a', pid), x, s);
      NumbersAppend(ForPid(b', pid), y, s);
    }
  }

  // The sum of the wrapped totals pid's reported windows hold.
  function ReportedTotal(reports: seq<Closed>, pid: U32, s: Series): nat {
    if reports == [] then 0
    else
      var c := reports[|reports| - 1];
      ReportedTotal(reports[..|reports| - 1], pid, s) + if c.pid == pid then TotalOf(c.window, s) else 0
  }

  function LiveTotal(lives: Lives, pid: U32, s: Series): U64 {
    if pid in lives then TotalOf(lives[pid], s) else 0
  }

  lemma {:induction false} ReportedTotalIs(reports: seq<Closed>, pid: U32, s: Series)
    ensures Wrap64(ReportedTotal(reports, pid, s)) == Wrap64(Sum(Numbers(Reported(reports, pid), s)))
  {
    hide Wrap64, Sum, Numbers;
    if reports == [] {
      NoNumbers(s);
    } else {
      var init, c := reports[..|reports| - 1], reports[|reports| - 1];
      ReportedTotalIs(init, pid, s);
      assert reports == init + [c];
      ReportedAppend(init, c, pid);
      if c.pid == pid {
        NumbersConcat(Reported(init, pid), c.window.events, s);
        SumConcat(Numbers(Reported(init, pid), s), Numbers(c.window.events, s));
        WrapSumStep(ReportedTotal(init, pid, s), Sum(Numbers(Reported(init, pid), s)),
                    Sum(Numbers(c.window.events, s)));
      }
    }
  }

  lemma DeliveredTotal(s: State, pid: U32, k: Series)
    requires WindowsPartition(s)
    ensures Wrap64(ReportedTotal(s.reports, pid, k) + LiveTotal(s.lives, pid, k))
         == Wrap64(Sum(Numbers(ForPid(s.toAggregator, pid), k)))
  {
    hide Wrap64, Sum, Numbers, Reported, ForPid;
    ReportedTotalIs(s.reports, pid, k);
    var p := Pending(s.lives, pid);
    NumbersConcat(Reported(s.reports, pid), p, k);
    SumConcat(Numbers(Reported(s.reports, pid), k), Numbers(p, k));
    assert LiveTotal(s.lives, pid, k) == Wrap64(Sum(Numbers(p, k))) by {
      NoNumbers(k);
      assert Wrap64(0) == 0 by { Wrap64Zero(); }
    }
    WrapSumStep(ReportedTotal(s.reports, pid, k), Sum(Numbers(Reported(s.reports, pid), k)), Sum(Numbers(p, k)));
  }

  lemma WrapSumStep(t: nat, u: nat, v: nat)
    requires Wrap64(t) == Wrap64(u)
    ensures Wrap64(t + Wrap64(v)) == Wrap64(u + v)
  {
    hide Wrap64;
    Wrap64Add(v, t);
    Wrap64Add(t, v);
    Wrap64Add(u, v);
  }

  lemma Wrap64Zero()
    ensures Wrap64(0) == 0
  {
  }

  // All of pid's tokens, flushed or still buffered.
  function AllTokens(s: State, pid: U32): seq<Token> {
    TokensOf(s.tokens, pid) + Buffered(s.buffers, pid)
  }

  lemma SeriesView(s: State, pid: U32, k: Series)
    requires Lossless(s) && InStep(s) && !s.hand.HalfSent? && k != Blocks
    ensures TokenCount(AllTokens(s, pid), k) == |Numbers(ForPid(s.toAggregator, pid), k)|
    ensures TokenSum(AllTokens(s, pid), k) == Sum(Numbers(ForPid(s.toAggregator, pid), k)) as real
  {
    hide TokenCount, TokenSum, Sum, Numbers, ForPid, TokensFor, TokensOf, Buffered, Events;
    assert Events(s.toAggregator) == Events(s.toSeries);
    SameEventsSameNumbers(s.toAggregator, s.toSeries, pid, k);
    TokensHoldNumbers(ForPid(s.toSeries, pid), k);
  }

  // What the two views total: tokens by their type from 1 to 4 and direction,
  // and the wrapped totals of windows.
  lemma TotalsTotal(tks: seq<Token>, tk: Token, reports: seq<Closed>, c: Closed, lives: Lives, pid: U32, s: Series)
    ensures TokenCount([], s) == 0 && TokenSum([], s) == 0.0 && ReportedTotal([], pid, s) == 0
    ensures var mine := match s
                        case Threads => tk.eventType == 1
                        case Blocks => false
                        case AllocBytes => tk.eventType == 2
                        case CopyBytes => tk.eventType == 3
                        case HtodBytes => tk.eventType == 3 && tk.dir == 0
                        case DtohBytes => tk.eventType == 3 && tk.dir == 1
                        case SyncTime => tk.eventType == 4;
            && TokenCount(tks + [tk], s) == TokenCount(tks, s) + (if mine then 1 else 0)
            && TokenSum(tks + [tk], s) == TokenSum(tks, s) + if mine then tk.value else 0.0
    ensures ReportedTotal(reports + [c], pid, s)
         == ReportedTotal(reports, pid, s) + if c.pid == pid then Sum(Numbers(c.window.events, s)) % TWO_64 else 0
    ensures LiveTotal(lives, pid, s) == if pid in lives then Sum(Numbers(lives[pid].events, s)) % TWO_64 else 0
  {
    assert (tks + [tk])[..|tks|] == tks && (reports + [c])[..|reports|] == reports;
  }

  // Between two deliveries, and whatever each collector has flushed, the two
  // views of every process agree: in counts by kind, and in totals modulo 2^64
  // for threads, allocated bytes, copied bytes and each copy direction.
  lemma CollectorsAgree(start: int, run: seq<Action>, duration: int, pid: U32)
    requires Allowed(Init(start), run, duration)
    requires !After(Init(start), run, duration).hand.HalfSent?
    ensures var s := After(Init(start), run, duration);
            && (forall k: Kind :: ReportedCount(s.reports, pid, k) + LiveCount(s.lives, pid, k)
                                  == TokenCount(AllTokens(s, pid), MainSeries(k)))
            && forall k: Series :: k != Blocks ==>
                 Wrap64(ReportedTotal(s.reports, pid, k) + LiveTotal(s.lives, pid, k))
                 == Wrap64(TokenSum(AllTokens(s, pid), k).Floor)
  {
    hide CountIn, Wrap64, Sum, Numbers, Reported, ForPid, TokenCount, TokenSum, AllTokens, Events;
    hide ReportedCount, ReportedTotal, LiveTotal, LiveCount, Init, After, Allowed;
    hide RecordsConserved, WindowsPartition, Lossless, InStep, Timeline;
    InitInv(start, duration);
    RunsKeepInv(Init(start), run, duration);
    var s := After(Init(start), run, duration);
    forall k: Kind ensures ReportedCount(s.reports, pid, k) + LiveCount(s.lives, pid, k)
                        == TokenCount(AllTokens(s, pid), MainSeries(k)) {
      DeliveredCount(s, pid, k);
      CountDelivered(s.toAggregator, pid, k);
      SeriesView(s, pid, MainSeries(k));
    }
    forall k: Series | k != Blocks ensures Wrap64(ReportedTotal(s.reports, pid, k) + LiveTotal(s.lives, pid, k))
                                        == Wrap64(TokenSum(AllTokens(s, pid), k).Floor) {
      DeliveredTotal(s, pid, k);
      SeriesView(s, pid, k);
    }
  }

  // ---- the window timeline -----------------------------------------------------

  // Over every run, a process's windows follow one another without overlap:
  // a reported window starts after every earlier one has ended, and so does
  // the live one; each holds only events received between its start and its
  // flush, and at least one.
  lemma WindowTimeline(start: int, run: seq<Action>, duration: int)
    requires Allowed(Init(start), run, duration)
    ensures var s := After(Init(start), run, duration);
            && (forall i, j :: 0 <= i < j < |s.reports| && s.reports[i].pid == s.reports[j].pid ==>
                  s.reports[i].window.end < s.reports[j].window.start)
            && (forall i :: 0 <= i < |s.reports| && s.reports[i].pid in s.lives ==>
                  s.reports[i].window.end < s.lives[s.reports[i].pid].start)
            && forall i :: 0 <= i < |s.reports| ==>
                 var c := s.reports[i];
                 && c.window.events != []
                 && forall e :: 0 <= e < |c.window.events| ==> c.window.start <= c.window.events[e].at <= c.at
  {
    hide Init, After, Allowed, RecordsConserved, WindowsPartition, Lossless, InStep;
    InitInv(start, duration);
    RunsKeepInv(Init(start), run, duration);
  }

  // A run whose flushes come exactly every duration, the first one duration
  // after the start.
  ghost predicate Punctual(s: State, a: Action, duration: int) {
    match a
    case Wait(dt) => s.now + dt <= s.lastTick + duration
    case FlushWindows(_) => s.now == s.lastTick + duration
    case _ => true
  }

  ghost predicate PunctualRun(s: State, run: seq<Action>, duration: int)
    requires Allowed(s, run, duration)
    decreases |run|
  {
    run == [] || (Punctual(s, run[0], duration) && PunctualRun(Next(s, run[0], duration), run[1..], duration))
  }

  ghost predicate OnTime(s: State, duration: int) {
    && s.now <= s.lastTick + duration
    && (forall pid :: pid in s.lives ==> s.lastTick - duration <= s.lives[pid].start)
    && forall i :: 0 <= i < |s.reports| ==> s.reports[i].at <= s.reports[i].window.start + 2 * duration
  }

  lemma OnTimeStep(s: State, a: Action, duration: int)
    requires duration > 0 && Timeline(s, duration) && OnTime(s, duration) && s.lastTick <= s.now
    requires Enabled(s, a) && Punctual(s, a, duration)
    ensures OnTime(Next(s, a, duration), duration)
    ensures Next(s, a, duration).lastTick <= Next(s, a, duration).now
  {
    match a
    case FlushWindows(order) =>
      CloseAllShape(order, s.lives, s.now);
      forall i | 0 <= i < |order| ensures order[i] in s.lives { assert order[i] in order; }
    case _ =>
  }

  lemma {:induction false} PunctualRuns(s: State, run: seq<Action>, duration: int)
    requires duration > 0 && Inv(s, duration) && OnTime(s, duration) && s.lastTick <= s.now
    requires Allowed(s, run, duration) && PunctualRun(s, run, duration)
    ensures OnTime(After(s, run, duration), duration)
    decreases |run|
  {
    if run != [] {
      hide RecordsConserved, WindowsPartition, Lossless, InStep, Timeline, OnTime, Next, Punctual;
      OnTimeStep(s, run[0], duration);
      InvStep(s, run[0], duration);
      PunctualRuns(Next(s, run[0], duration), run[1..], duration);
    }
  }

  // With punctual ticks no window is reported later than two durations after
  // it opened, and none is still live later than that.
  lemma ReportedWithinTwoDurations(start: int, run: seq<Action>, duration: int)
    requires duration > 0
    requires Allowed(Init(start), run, duration) && PunctualRun(Init(start), run, duration)
    ensures var s := After(Init(start), run, duration);
            && (forall i :: 0 <= i < |s.reports| ==> s.reports[i].at <= s.reports[i].window.start + 2 * duration)
            && forall pid :: pid in s.lives ==> s.now <= s.lives[pid].start + 2 * duration
  {
    hide After, Allowed, PunctualRun;
    InitInv(start, duration);
    PunctualRuns(Init(start), run, duration);
  }
}
