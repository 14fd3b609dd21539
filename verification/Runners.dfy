// The two ticker loops, interleaved in any way with the deliveries of the read
// loop: what each collector has sent on its channel.
module Runners {
  import opened Arith
  import opened Records
  import opened Stats
  import opened Wire
  import opened Orders
  import opened Windows
  import opened TimeSeries
  import opened Aggregator
  import opened Telemetry

  // What happens to a collector next: it is handed an event, or its ticker
  // fires.
  datatype Step = Deliver(event: Event, at: int) | Tick(at: int)

  function Delivered(script: seq<Step>): seq<Stamped> {
    if script == [] then []
    else
      var a := script[|script| - 1];
      Delivered(script[..|script| - 1]) + if a.Deliver? then [Stamped(a.event, a.at)] else []
  }

  lemma DeliveredAppend(script: seq<Step>, a: Step)
    ensures Delivered(script + [a]) ==
              if a.Deliver? then Delivered(script) + [Stamped(a.event, a.at)] else Delivered(script)
  {
    assert (script + [a])[..|script|] == script;
  }

  // All events of a sequence of batches, in order.
  function Sent(out: seq<GpuBatch>): seq<GpuEvent> {
    if out == [] then [] else Sent(out[..|out| - 1]) + out[|out| - 1].batch
  }

  lemma SentAppend(out: seq<GpuBatch>, b: GpuBatch)
    ensures Sent(out + [b]) == Sent(out) + b.batch
  {
    assert (out + [b])[..|out|] == out;
  }

  ghost predicate NoEmptyBatch(out: seq<GpuBatch>) {
    forall i :: 0 <= i < |out| ==> out[i].batch != []
  }

  // The sent events report, one by one, the closed windows.
  ghost predicate SentReports(events: seq<GpuEvent>, closed: seq<Closed>) {
    |events| == |closed| && forall i :: 0 <= i < |events| ==> Reports(events[i], closed[i].pid, closed[i].window)
  }

  // The part of the state machine an aggregator alone goes through.
  function AggregatorState(delivered: seq<Stamped>, closed: seq<Closed>, lives: Lives, now: int): State {
    State(now, [], Empty, lives, map[], map[], [], delivered, [], closed, [], now)
  }

  ghost predicate Partitioned(delivered: seq<Stamped>, closed: seq<Closed>, lives: Lives) {
    WindowsPartition(AggregatorState(delivered, closed, lives, 0))
  }

  lemma DeliverStep(delivered: seq<Stamped>, closed: seq<Closed>, lives: Lives, e: Event, at: int, duration: int)
    requires Partitioned(delivered, closed, lives)
    ensures Partitioned(delivered + [Stamped(e, at)], closed, Received(lives, e, at, duration))
  {
    hide ForPid, Reported, Received, Pending;
    DeliveryPartitions(AggregatorState(delivered, closed, lives, at), e, duration);
  }

  // A flush closes exactly the windows its batch reports.
  lemma FlushStep(delivered: seq<Stamped>, closed: seq<Closed>, lives: Lives,
                  sent: seq<GpuEvent>, events: seq<GpuEvent>, at: int)
    requires Partitioned(delivered, closed, lives) && SentReports(sent, closed)
    requires FlushReports(events, lives, at)
    ensures forall p :: p in PidsOf(events) ==> p in lives
    ensures var closed' := closed + CloseAll(PidsOf(events), lives, at);
            Partitioned(delivered, closed', Unexpired(lives, at)) && SentReports(sent + events, closed')
  {
    hide ForPid, Reported, Pending, Reports, Unexpired, ExpiredPids;
    var s := AggregatorState(delivered, closed, lives, at);
    FlushIsAStep(s, events);
    forall p | p in PidsOf(events) ensures p in lives { ExpiredAreLive(lives, at, p); }
    FlushPartitions(s, PidsOf(events));
  }

  lemma ExpiredAreLive(lives: Lives, at: int, p: U32)
    ensures p in ExpiredPids(lives, at) ==> p in lives
  {
  }

  lemma QuietFlush(lives: Lives, at: int)
    requires ExpiredPids(lives, at) == {}
    ensures Unexpired(lives, at) == lives
  {
    forall p | p in lives ensures !Expired(lives[p], at) {
      assert p !in ExpiredPids(lives, at);
    }
  }

  // What is so between any two steps of an aggregator's run.
  ghost predicate Running(agg: GPUAggregator, delivered: seq<Stamped>, out: seq<GpuBatch>, closed: seq<Closed>)
    reads agg, agg.windows.Values
  {
    && agg.Valid() && NoEmptyBatch(out)
    && SentReports(Sent(out), closed)
    && Partitioned(delivered, closed, agg.lives)
  }

  method DeliverTo(agg: GPUAggregator, e: Event, at: int,
                   ghost delivered: seq<Stamped>, ghost out: seq<GpuBatch>, ghost closed: seq<Closed>)
    requires Running(agg, delivered, out, closed)
    modifies agg, agg.windows.Values
    ensures fresh(agg.windows.Values - old(agg.windows.Values))
    ensures Running(agg, delivered + [Stamped(e, at)], out, closed)
    ensures agg.lives == Received(old(agg.lives), e, at, agg.windowDuration)
  {
    hide agg.Valid, Partitioned, SentReports, Sent, Received, NoEmptyBatch;
    DeliverStep(delivered, closed, agg.lives, e, at, agg.windowDuration);
    agg.Update(Gpu(e), at);
  }

  method OnTick(agg: GPUAggregator, at: int,
                ghost delivered: seq<Stamped>, out: seq<GpuBatch>, ghost closed: seq<Closed>)
    returns (out': seq<GpuBatch>, ghost closed': seq<Closed>)
    requires Running(agg, delivered, out, closed)
    modifies agg, agg.windows.Values
    ensures agg.windows.Values <= old(agg.windows.Values)
    ensures Running(agg, delivered, out', closed')
    ensures agg.lives == Unexpired(old(agg.lives), at)
    ensures TickSends(old(agg.lives), at, out, closed, out', closed')
  {
    hide agg.Valid, Partitioned, SentReports, Sent, FlushReports, Unexpired, ExpiredPids, CloseAll, PidsOf;
    ghost var lives := agg.lives;
    var batch := agg.Flush(at);
    match batch
    case None =>
      QuietFlush(lives, at);
      out', closed' := out, closed;
    case Some(b) =>
      FlushStep(delivered, closed, lives, Sent(out), b.batch, at);
      SentAppend(out, b);
      BatchNotEmpty(b.batch, lives, at);
      closed' := closed + CloseAll(PidsOf(b.batch), lives, at);
      out' := out + [b];
  }

  // Drives an aggregator through any script, sending each batch a flush
  // returns and nothing when it returns none. Its windows are those the script
  // leaves live, one batch is sent for each tick that finds an ended window, and
  // closed lists the windows behind the reports: exactly those that had ended at
  // a tick. For every process their events, followed by the live window's, are
  // exactly the delivered ones.
  method RunAggregator(agg: GPUAggregator, script: seq<Step>) returns (out: seq<GpuBatch>, ghost closed: seq<Closed>)
    requires agg.Valid() && agg.lives == map[]
    modifies agg, agg.windows.Values
    ensures agg.Valid() && agg.lives == LivesAfter(script, agg.windowDuration)
    ensures WindowBatches(out, script, agg.windowDuration)
    ensures SentReports(Sent(out), closed)
    ensures forall c :: c in closed <==> ClosedBy(c, script, agg.windowDuration)
    ensures forall pid :: ForPid(Delivered(script), pid) == Reported(closed, pid) + Pending(agg.lives, pid)
    ensures script != [] && script[|script| - 1].Tick? ==>
              forall pid :: pid in agg.lives ==> script[|script| - 1].at <= agg.lives[pid].end
  {
    hide agg.Valid, ForPid, Reported, Pending;
    out, closed := [], [];
    NothingPartitioned();
    for i := 0 to |script|
      invariant Running(agg, Delivered(script[..i]), out, closed)
      invariant Faithful(agg, script[..i], out, closed)
      invariant fresh(agg.windows.Values - old(agg.windows.Values))
    {
      hide Running, Delivered, LivesAfter, WindowBatches, ClosedBy, Received, Unexpired, ExpiredPids, CloseAll, PidsOf;
      hide FlushReports;
      var before, a := script[..i], script[i];
      assert script[..i + 1] == before + [a];
      DeliveredAppend(before, a);
      match a
      case Deliver(e, at) =>
        DeliverTo(agg, e, at, Delivered(before), out, closed);
        FaithfulDelivery(before, out, closed, e, at, agg.windowDuration);
      case Tick(at) =>
        ghost var lives, sent, were := agg.lives, out, closed;
        out, closed := OnTick(agg, at, Delivered(before), out, closed);
        FaithfulTick(before, sent, were, out, closed, at, agg.windowDuration);
    }
    assert script[..|script|] == script;
    if script != [] && script[|script| - 1].Tick? {
      FlushClosesTheEnded(LivesAfter(script[..|script| - 1], agg.windowDuration), script[|script| - 1].at);
    }
  }

  // ---- what a script leaves and sends, event by event ------------------------------

  function LivesAfter(script: seq<Step>, duration: int): Lives {
    if script == [] then map[]
    else
      var before, a := LivesAfter(script[..|script| - 1], duration), script[|script| - 1];
      if a.Deliver? then Received(before, a.event, a.at, duration) else Unexpired(before, a.at)
  }

  // One batch for each tick that finds ended windows, reporting exactly those,
  // and none for the others.
  ghost predicate WindowBatches(out: seq<GpuBatch>, script: seq<Step>, duration: int) {
    if script == [] then out == []
    else
      var init, a := script[..|script| - 1], script[|script| - 1];
      if a.Deliver? || ExpiredPids(LivesAfter(init, duration), a.at) == {} then WindowBatches(out, init, duration)
      else
        && out != [] && WindowBatches(out[..|out| - 1], init, duration)
        && out[|out| - 1].kind == "gpu_time_window"
        && FlushReports(out[|out| - 1].batch, LivesAfter(init, duration), a.at)
  }

  // The window was live, and had ended, just before a tick.
  ghost predicate ClosedBy(c: Closed, script: seq<Step>, duration: int) {
    exists i :: 0 <= i < |script| && ClosedAt(c, script[i], LivesAfter(script[..i], duration))
  }

  predicate ClosedAt(c: Closed, a: Step, lives: Lives) {
    a == Tick(c.at) && c.pid in lives && lives[c.pid] == c.window && c.window.end < c.at
  }

  lemma ScriptAppend(script: seq<Step>, a: Step, duration: int)
    ensures LivesAfter([], duration) == map[]
    ensures LivesAfter(script + [a], duration) ==
              if a.Deliver? then Received(LivesAfter(script, duration), a.event, a.at, duration)
              else Unexpired(LivesAfter(script, duration), a.at)
    ensures forall c :: ClosedBy(c, script + [a], duration) <==>
              ClosedBy(c, script, duration) || ClosedAt(c, a, LivesAfter(script, duration))
  {
    hide Received, Unexpired, ClosedAt;
    var longer := script + [a];
    assert longer[..|script|] == script;
    forall c ensures ClosedBy(c, longer, duration) <==>
        ClosedBy(c, script, duration) || ClosedAt(c, a, LivesAfter(script, duration)) {
      hide LivesAfter;
      if ClosedBy(c, script, duration) {
        var i :| 0 <= i < |script| && ClosedAt(c, script[i], LivesAfter(script[..i], duration));
        assert longer[i] == script[i] && longer[..i] == script[..i];
      }
      if ClosedAt(c, a, LivesAfter(script, duration)) {
        assert longer[|script|] == a;
      }
      if ClosedBy(c, longer, duration) {
        var i :| 0 <= i < |longer| && ClosedAt(c, longer[i], LivesAfter(longer[..i], duration));
        if i < |script| {
          assert longer[i] == script[i] && longer[..i] == script[..i];
        }
      }
    }
  }

  lemma BatchesAppend(out: seq<GpuBatch>, script: seq<Step>, a: Step, duration: int)
    ensures a.Deliver? || ExpiredPids(LivesAfter(script, duration), a.at) == {} ==>
              WindowBatches(out, script + [a], duration) == WindowBatches(out, script, duration)
    ensures a.Tick? && ExpiredPids(LivesAfter(script, duration), a.at) != {} ==>
              && !WindowBatches([], script + [a], duration)
              && forall b: GpuBatch :: WindowBatches(out + [b], script + [a], duration) <==>
                   && WindowBatches(out, script, duration) && b.kind == "gpu_time_window"
                   && FlushReports(b.batch, LivesAfter(script, duration), a.at)
  {
    hide LivesAfter, ExpiredPids, FlushReports;
    assert (script + [a])[..|script|] == script;
    forall b: GpuBatch ensures (out + [b])[..|out|] == out {}
  }

  ghost predicate Faithful(agg: GPUAggregator, script: seq<Step>, out: seq<GpuBatch>, closed: seq<Closed>)
    reads agg
  {
    && agg.lives == LivesAfter(script, agg.windowDuration)
    && Accounted(script, out, closed, agg.windowDuration)
  }

  ghost predicate Accounted(script: seq<Step>, out: seq<GpuBatch>, closed: seq<Closed>, duration: int) {
    && WindowBatches(out, script, duration)
    && forall c :: c in closed <==> ClosedBy(c, script, duration)
  }

  lemma FaithfulDelivery(script: seq<Step>, out: seq<GpuBatch>, closed: seq<Closed>, e: Event, at: int, duration: int)
    requires Accounted(script, out, closed, duration)
    ensures LivesAfter(script + [Deliver(e, at)], duration) == Received(LivesAfter(script, duration), e, at, duration)
    ensures Accounted(script + [Deliver(e, at)], out, closed, duration)
  {
    hide LivesAfter, WindowBatches, ClosedBy, Received;
    ScriptAppend(script, Deliver(e, at), duration);
    BatchesAppend(out, script, Deliver(e, at), duration);
  }

  // What one tick sends and closes.
  ghost predicate TickSends(lives: Lives, at: int, out: seq<GpuBatch>, closed: seq<Closed>,
                            out': seq<GpuBatch>, closed': seq<Closed>) {
    if ExpiredPids(lives, at) == {} then out' == out && closed' == closed
    else
      && |out'| == |out| + 1 && out'[..|out|] == out && out'[|out|].kind == "gpu_time_window"
      && FlushReports(out'[|out|].batch, lives, at)
      && (forall p :: p in PidsOf(out'[|out|].batch) ==> p in lives)
      && closed' == closed + CloseAll(PidsOf(out'[|out|].batch), lives, at)
  }

  lemma FaithfulTick(script: seq<Step>, out: seq<GpuBatch>, closed: seq<Closed>,
                     out': seq<GpuBatch>, closed': seq<Closed>, at: int, duration: int)
    requires Accounted(script, out, closed, duration)
    requires TickSends(LivesAfter(script, duration), at, out, closed, out', closed')
    ensures LivesAfter(script + [Tick(at)], duration) == Unexpired(LivesAfter(script, duration), at)
    ensures Accounted(script + [Tick(at)], out', closed', duration)
  {
    hide LivesAfter, WindowBatches, ClosedBy, Unexpired, FlushReports, CloseAll, PidsOf, ClosedAt, ExpiredPids;
    var lives := LivesAfter(script, duration);
    ScriptAppend(script, Tick(at), duration);
    BatchesAppend(out, script, Tick(at), duration);
    if ExpiredPids(lives, at) == {} {
      forall c ensures !ClosedAt(c, Tick(at), lives) { NothingEnded(c, lives, at); }
    } else {
      var b := out'[|out|];
      assert out' == out + [b];
      forall c ensures ClosedAt(c, Tick(at), lives) <==> c in CloseAll(PidsOf(b.batch), lives, at) {
        ClosedAreTheEnded(c, b.batch, lives, at);
      }
    }
  }

  lemma NothingEnded(c: Closed, lives: Lives, at: int)
    requires ExpiredPids(lives, at) == {}
    ensures !ClosedAt(c, Tick(at), lives)
  {
    assert c.pid !in ExpiredPids(lives, at);
  }

  lemma ClosedAreTheEnded(c: Closed, batch: seq<GpuEvent>, lives: Lives, at: int)
    requires FlushReports(batch, lives, at) && forall p :: p in PidsOf(batch) ==> p in lives
    ensures ClosedAt(c, Tick(at), lives) <==> c in CloseAll(PidsOf(batch), lives, at)
  {
    InCloseAll(PidsOf(batch), lives, at, c);
    assert c.pid in PidsOf(batch) <==> c.pid in ExpiredPids(lives, at);
  }

  lemma {:induction false} InCloseAll(order: seq<U32>, lives: Lives, at: int, c: Closed)
    requires forall p :: p in order ==> p in lives
    ensures c in CloseAll(order, lives, at) <==> c.pid in order && c == Closed(c.pid, lives[c.pid], at)
  {
    if order != [] {
      var init, p := order[..|order| - 1], order[|order| - 1];
      InCloseAll(init, lives, at, c);
      assert order == init + [p];
    }
  }

  lemma NothingPartitioned()
    ensures Partitioned([], [], map[]) && SentReports(Sent([]), [])
  {
  }

  lemma BatchNotEmpty(events: seq<GpuEvent>, lives: Lives, at: int)
    requires FlushReports(events, lives, at) && ExpiredPids(lives, at) != {}
    ensures events != []
  {
    ListedSize(events, ExpiredPids(lives, at));
  }

  // The same for the time series: what is so between any two steps.
  ghost predicate SeriesRunning(series: TimeSeriesCollector, delivered: seq<Stamped>, out: seq<GpuBatch>)
    reads series
  {
    series.Valid() && NoEmptyBatch(out) && SeriesComplete(Sent(out), series.buffers, delivered)
  }

  method DeliverToSeries(series: TimeSeriesCollector, e: Event, at: int,
                         ghost delivered: seq<Stamped>, ghost out: seq<GpuBatch>)
    requires SeriesRunning(series, delivered, out)
    modifies series
    ensures SeriesRunning(series, delivered + [Stamped(e, at)], out)
    ensures Contents(series) == Stored(old(Contents(series)), e, at)
  {
    hide SeriesComplete, Sent, TokenOf, Buffered, NoEmptyBatch;
    SeriesDeliver(Sent(out), series.buffers, delivered, Stamped(e, at));
    series.Update(Gpu(e), at);
  }

  method OnSeriesTick(series: TimeSeriesCollector, ghost delivered: seq<Stamped>, out: seq<GpuBatch>)
    returns (out': seq<GpuBatch>)
    requires SeriesRunning(series, delivered, out)
    modifies series
    ensures SeriesRunning(series, delivered, out')
    ensures series.buffers == map[] && series.comms == map[]
    ensures SeriesSends(old(Contents(series)), out, out')
  {
    hide SeriesComplete, Sent, Flushed;
    ghost var buffers, comms := series.buffers, series.comms;
    var batch;
    ghost var order;
    batch, order := series.Flush();
    match batch
    case None =>
      out' := out;
    case Some(b) =>
      SeriesFlush(Sent(out), buffers, delivered, order, comms);
      SentAppend(out, b);
      FlushedSome(order, buffers, comms);
      out' := out + [b];
  }

  // Drives a time series through any script: it holds what the script has
  // stored since its last tick, each tick sends all of that in one batch and
  // nothing if there is nothing, and for every process the sent tokens, followed
  // by those still buffered, are exactly the tokens of the delivered events.
  method RunSeries(series: TimeSeriesCollector, script: seq<Step>) returns (out: seq<GpuBatch>)
    requires series.Valid() && series.buffers == map[]
    modifies series
    ensures series.Valid() && Contents(series) == StoredAfter(script) && TokenBatches(out, script)
    ensures forall pid :: TokensOf(Sent(out), pid) + Buffered(series.buffers, pid)
                          == TokensFor(ForPid(Delivered(script), pid))
    ensures script != [] && script[|script| - 1].Tick? ==> series.buffers == map[] && series.comms == map[]
  {
    hide series.Valid, TokensOf, Buffered, TokensFor, ForPid;
    out := [];
    NothingSentYet();
    EmptySeries(series);
    for i := 0 to |script|
      invariant SeriesRunning(series, Delivered(script[..i]), out)
      invariant Contents(series) == StoredAfter(script[..i]) && TokenBatches(out, script[..i])
    {
      hide SeriesRunning, Delivered, StoredAfter, TokenBatches, Stored, SeriesSends;
      var before, a := script[..i], script[i];
      assert script[..i + 1] == before + [a];
      DeliveredAppend(before, a);
      ghost var sent := out;
      match a
      case Deliver(e, at) =>
        DeliverToSeries(series, e, at, Delivered(before), out);
      case Tick(_) =>
        out := OnSeriesTick(series, Delivered(before), out);
      StoredAppend(before, a, sent, out);
    }
    assert script[..|script|] == script;
  }

  // ---- what a script stores and sends, event by event -------------------------------

  // What a time series holds, as values.
  datatype Store = Store(buffers: Buffers, comms: Comms)

  ghost function Contents(series: TimeSeriesCollector): Store
    reads series
  {
    Store(series.buffers, series.comms)
  }

  function Stored(c: Store, e: Event, at: int): Store {
    Store(c.buffers[e.pid := Buffered(c.buffers, e.pid) + [TokenOf(e, at)]], c.comms[e.pid := CString(e.comm)])
  }

  function StoredAfter(script: seq<Step>): Store {
    if script == [] then Store(map[], map[])
    else
      var a := script[|script| - 1];
      if a.Deliver? then Stored(StoredAfter(script[..|script| - 1]), a.event, a.at) else Store(map[], map[])
  }

  // A tick sends everything stored in one batch, in some order of processes, or
  // nothing if nothing is.
  ghost predicate SeriesSends(c: Store, out: seq<GpuBatch>, out': seq<GpuBatch>) {
    if c.buffers == map[] then out' == out
    else
      exists order :: Listing(order, c.buffers.Keys)
                      && out' == out + [GpuBatch("gpu_time_series", Flushed(order, c.buffers, c.comms))]
  }

  // Every tick of the script did so.
  ghost predicate TokenBatches(out: seq<GpuBatch>, script: seq<Step>)
    decreases |script|
  {
    if script == [] then out == []
    else
      var init, a := script[..|script| - 1], script[|script| - 1];
      if a.Deliver? then TokenBatches(out, init)
      else exists sent :: TokenBatches(sent, init) && SeriesSends(StoredAfter(init), sent, out)
  }

  lemma StoredAppend(script: seq<Step>, a: Step, sent: seq<GpuBatch>, out: seq<GpuBatch>)
    ensures StoredAfter([]) == Store(map[], map[]) && (TokenBatches(out, []) <==> out == [])
    ensures StoredAfter(script + [a]) ==
              if a.Deliver? then Stored(StoredAfter(script), a.event, a.at) else Store(map[], map[])
    ensures a.Deliver? ==> TokenBatches(out, script + [a]) == TokenBatches(out, script)
    ensures a.Tick? && TokenBatches(sent, script) && SeriesSends(StoredAfter(script), sent, out) ==>
              TokenBatches(out, script + [a])
  {
    hide Stored, SeriesSends;
    assert (script + [a])[..|script|] == script;
  }

  // Storing touches one process's buffer and name: its token goes to the end.
  lemma OneMoreStored(c: Store, e: Event, at: int)
    ensures var c' := Stored(c, e, at);
            && c'.buffers.Keys == c.buffers.Keys + {e.pid} && c'.comms.Keys == c.comms.Keys + {e.pid}
            && c'.buffers[e.pid] == (if e.pid in c.buffers then c.buffers[e.pid] else []) + [TokenOf(e, at)]
            && c'.comms[e.pid] == CString(e.comm)
            && (forall p :: p in c.buffers && p != e.pid ==> c'.buffers[p] == c.buffers[p])
            && forall p :: p in c.comms && p != e.pid ==> c'.comms[p] == c.comms[p]
  {
  }

  lemma EmptySeries(series: TimeSeriesCollector)
    requires series.Valid() && series.buffers == map[]
    ensures Contents(series) == StoredAfter([])
  {
    assert series.comms.Keys == {};
  }

  lemma NothingSentYet()
    ensures SeriesComplete(Sent([]), map[], Delivered([]))
  {
  }

  ghost predicate SeriesComplete(sent: seq<GpuEvent>, buffers: Buffers, delivered: seq<Stamped>) {
    forall pid :: TokensOf(sent, pid) + Buffered(buffers, pid) == TokensFor(ForPid(delivered, pid))
  }

  lemma SeriesDeliver(sent: seq<GpuEvent>, buffers: Buffers, delivered: seq<Stamped>, x: Stamped)
    requires SeriesComplete(sent, buffers, delivered)
    ensures SeriesComplete(sent, buffers[x.event.pid := Buffered(buffers, x.event.pid) + [TokenOf(x.event, x.at)]],
                           delivered + [x])
  {
    hide TokensOf, TokensFor, ForPid, TokenOf, Buffered;
    forall pid {
      DeliveredTokens(buffers, sent, delivered, x, pid);
    }
  }

  lemma SeriesFlush(sent: seq<GpuEvent>, buffers: Buffers, delivered: seq<Stamped>, order: seq<U32>, comms: Comms)
    requires SeriesComplete(sent, buffers, delivered) && Listing(order, buffers.Keys)
    ensures SeriesComplete(sent + Flushed(order, buffers, comms), map[], delivered)
  {
    hide TokensOf, TokensFor, ForPid, Flushed;
    forall pid ensures TokensOf(sent + Flushed(order, buffers, comms), pid) + Buffered(map[], pid)
                    == TokensFor(ForPid(delivered, pid)) {
      TokensOfConcat(sent, Flushed(order, buffers, comms), pid);
      FlushedTokens(order, buffers, comms, pid);
      assert pid in order <==> pid in buffers;
    }
  }

  lemma FlushedSome(order: seq<U32>, buffers: Buffers, comms: Comms)
    requires Listing(order, buffers.Keys) && buffers != map[]
    requires forall p :: p in buffers ==> buffers[p] != []
    ensures Flushed(order, buffers, comms) != []
  {
    forall p | p in order ensures Buffered(buffers, p) != [] {
      assert p in buffers.Keys;
    }
    FlushedNonEmpty(order, buffers, comms);
    var p :| p in buffers;
    assert p in buffers.Keys;
  }
}
