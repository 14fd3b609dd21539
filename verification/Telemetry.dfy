// The user-space telemetry path as a state machine: handlers filling the ring
// buffer, the reader, the two collectors and their flushes, in any
// interleaving. Each collector's Flush and the aggregator's Update hold their
// lock throughout; the time series stamps a token before it takes its lock to
// append it, and the two are merged into one step here.
module Telemetry {
  import opened Arith
  import opened Records
  import opened Stats
  import opened Wire
  import opened Orders
  import opened Windows
  import opened TimeSeries

  // A ring-buffer slot: reserved by a handler still filling it, or submitted.
  datatype Slot = Reserved | Submitted(raw: seq<U8>)

  // The reader's hand: nothing, an event just decoded, or an event the first
  // collector already has.
  datatype Hand = Empty | Decoded(event: Event) | HalfSent(event: Event)

  // A window reported for pid by the flush at time at.
  datatype Closed = Closed(pid: U32, window: Live, at: int)

  datatype State = State(
    now: int,
    ring: seq<Slot>,
    hand: Hand,
    lives: Lives,
    buffers: Buffers,
    comms: Comms,
    // history: what has happened so far
    submitted: seq<Event>,
    toAggregator: seq<Stamped>,
    toSeries: seq<Stamped>,
    reports: seq<Closed>,
    tokens: seq<GpuEvent>,
    lastTick: int)

  datatype Action =
    | Wait(dt: nat)
    | Reserve
    | Submit(i: nat, event: Event, padding: Padding)
    | Read
    | SendToAggregator
    | SendToSeries
    | FlushWindows(order: seq<U32>)
    | FlushTokens(order: seq<U32>)

  function Init(now: int): State {
    State(now, [], Empty, map[], map[], map[], [], [], [], [], [], now)
  }

  ghost predicate Enabled(s: State, a: Action) {
    match a
    case Wait(_) => true
    case Reserve => true
    case Submit(i, _, p) => i < |s.ring| && s.ring[i] == Reserved && p.Valid()
    case Read => s.hand == Empty && s.ring != [] && s.ring[0].Submitted?
    case SendToAggregator => s.hand.Decoded?
    case SendToSeries => s.hand.HalfSent?
    case FlushWindows(order) => Listing(order, ExpiredPids(s.lives, s.now))
    case FlushTokens(order) => Listing(order, s.buffers.Keys)
  }

  function ToHand(r: ReadResult): Hand {
    match r
    case Decoded(e) => Hand.Decoded(e)
    case _ => Empty
  }

  function CloseAll(order: seq<U32>, lives: Lives, now: int): seq<Closed>
    requires forall p :: p in order ==> p in lives
  {
    if order == [] then []
    else
      var pid := order[|order| - 1];
      CloseAll(order[..|order| - 1], lives, now) + [Closed(pid, lives[pid], now)]
  }

  ghost function Next(s: State, a: Action, duration: int): State
    requires Enabled(s, a)
  {
    match a
    case Wait(dt) => s.(now := s.now + dt)
    case Reserve => s.(ring := s.ring + [Reserved])
    case Submit(i, e, p) =>
      s.(ring := s.ring[i := Submitted(Layout(e, p))], submitted := s.submitted + [e])
    case Read => s.(ring := s.ring[1..], hand := ToHand(Dispatch(s.ring[0].raw)))
    case SendToAggregator =>
      var e := s.hand.event;
      s.(lives := Received(s.lives, e, s.now, duration),
         toAggregator := s.toAggregator + [Stamped(e, s.now)],
         hand := HalfSent(e))
    case SendToSeries =>
      var e := s.hand.event;
      s.(buffers := s.buffers[e.pid := Buffered(s.buffers, e.pid) + [TokenOf(e, s.now)]],
         comms := s.comms[e.pid := CString(e.comm)],
         toSeries := s.toSeries + [Stamped(e, s.now)],
         hand := Empty)
    case FlushWindows(order) =>
      s.(reports := s.reports + CloseAll(order, s.lives, s.now),
         lives := Unexpired(s.lives, s.now),
         lastTick := s.now)
    case FlushTokens(order) =>
      s.(tokens := s.tokens + Flushed(order, s.buffers, s.comms), buffers := map[], comms := map[])
  }

  ghost predicate Allowed(s: State, run: seq<Action>, duration: int)
    decreases |run|
  {
    run == [] || (Enabled(s, run[0]) && Allowed(Next(s, run[0], duration), run[1..], duration))
  }

  ghost function After(s: State, run: seq<Action>, duration: int): State
    requires Allowed(s, run, duration)
    decreases |run|
  {
    if run == [] then s else After(Next(s, run[0], duration), run[1..], duration)
  }

  // ---- views of the history ----------------------------------------------

  function ForPid(es: seq<Stamped>, pid: U32): seq<Stamped> {
    if es == [] then []
    else
      var x := es[|es| - 1];
      ForPid(es[..|es| - 1], pid) + if x.event.pid == pid then [x] else []
  }

  // The events of pid's reported windows, one window after the other.
  function Reported(reports: seq<Closed>, pid: U32): seq<Stamped> {
    if reports == [] then []
    else
      var c := reports[|reports| - 1];
      Reported(reports[..|reports| - 1], pid) + if c.pid == pid then c.window.events else []
  }

  function Pending(lives: Lives, pid: U32): seq<Stamped> {
    if pid in lives then lives[pid].events else []
  }

  function TokensFor(es: seq<Stamped>): seq<Token> {
    seq(|es|, i requires 0 <= i < |es| => TokenOf(es[i].event, es[i].at))
  }

  function Events(es: seq<Stamped>): seq<Event> {
    seq(|es|, i requires 0 <= i < |es| => es[i].event)
  }

  // The records in the ring.
  function InRing(ring: seq<Slot>): seq<Event> {
    if ring == [] then []
    else
      (if ring[0].Submitted? then InHand(ToHand(Dispatch(ring[0].raw))) else []) + InRing(ring[1..])
  }

  function InHand(hand: Hand): seq<Event> {
    if hand.Decoded? then [hand.event] else []
  }

  // ---- views under extension ----------------------------------------------

  lemma ForPidAppend(es: seq<Stamped>, x: Stamped, pid: U32)
    ensures ForPid(es + [x], pid) == if x.event.pid == pid then ForPid(es, pid) + [x] else ForPid(es, pid)
  {
    assert (es + [x])[..|es|] == es;
  }

  lemma ReportedAppend(reports: seq<Closed>, c: Closed, pid: U32)
    ensures Reported(reports + [c], pid)
         == if c.pid == pid then Reported(reports, pid) + c.window.events else Reported(reports, pid)
  {
    assert (reports + [c])[..|reports|] == reports;
  }

  lemma CloseAllInit(order: seq<U32>, lives: Lives, now: int)
    requires order != [] && forall p :: p in order ==> p in lives
    ensures var init, last := order[..|order| - 1], order[|order| - 1];
            CloseAll(order, lives, now) == CloseAll(init, lives, now) + [Closed(last, lives[last], now)]
  {
  }

  lemma {:induction false} ReportedCloseAll(reports: seq<Closed>, order: seq<U32>, lives: Lives, now: int, pid: U32)
    requires forall p :: p in order ==> p in lives
    requires Distinct(order)
    ensures Reported(reports + CloseAll(order, lives, now), pid)
         == Reported(reports, pid) + if pid in order then lives[pid].events else []
  {
    if order == [] {
      assert reports + [] == reports;
    } else {
      hide Distinct, CloseAll, Reported;
      var init, p := order[..|order| - 1], order[|order| - 1];
      DistinctInit(order, pid);
      ReportedCloseAll(reports, init, lives, now, pid);
      CloseAllInit(order, lives, now);
      var earlier, c := reports + CloseAll(init, lives, now), Closed(p, lives[p], now);
      assert reports + (CloseAll(init, lives, now) + [c]) == earlier + [c];
      ReportedAppend(earlier, c, pid);
    }
  }

  lemma {:induction false} CloseAllShape(order: seq<U32>, lives: Lives, now: int)
    requires forall p :: p in order ==> p in lives
    ensures |CloseAll(order, lives, now)| == |order|
    ensures forall i :: 0 <= i < |order| ==> CloseAll(order, lives, now)[i] == Closed(order[i], lives[order[i]], now)
  {
    if order != [] {
      CloseAllShape(order[..|order| - 1], lives, now);
    }
  }

  lemma {:induction false} InRingReserve(ring: seq<Slot>)
    ensures InRing(ring + [Reserved]) == InRing(ring)
  {
    if ring != [] {
      InRingReserve(ring[1..]);
      assert (ring + [Reserved])[1..] == ring[1..] + [Reserved];
    }
  }

  lemma SubmittedDecodes(e: Event, p: Padding)
    requires p.Valid()
    ensures Dispatch(Layout(e, p)) == ReadResult.Decoded(e)
  {
    DispatchLayout(e, p, []);
    assert Layout(e, p) + [] == Layout(e, p);
  }

  lemma {:induction false} InRingSubmit(ring: seq<Slot>, i: nat, e: Event, p: Padding)
    requires i < |ring| && ring[i] == Reserved && p.Valid()
    ensures multiset(InRing(ring[i := Submitted(Layout(e, p))])) == multiset(InRing(ring)) + multiset{e}
  {
    hide Dispatch, Layout;
    var slot := Submitted(Layout(e, p));
    var ring' := ring[i := slot];
    if i == 0 {
      SubmittedDecodes(e, p);
      assert ring'[1..] == ring[1..];
      assert InRing(ring') == [e] + InRing(ring[1..]);
    } else {
      InRingSubmit(ring[1..], i - 1, e, p);
      assert ring'[1..] == ring[1..][i - 1 := slot];
    }
  }

  lemma InRingRead(ring: seq<Slot>)
    requires ring != [] && ring[0].Submitted?
    ensures multiset(InRing(ring)) == multiset(InHand(ToHand(Dispatch(ring[0].raw)))) + multiset(InRing(ring[1..]))
  {
  }

  lemma EventsAppend(es: seq<Stamped>, x: Stamped)
    ensures Events(es + [x]) == Events(es) + [x.event]
    ensures multiset(Events(es + [x])) == multiset(Events(es)) + multiset{x.event}
  {
    assert Events(es + [x]) == Events(es) + [x.event];
  }

  lemma TokensForAppend(es: seq<Stamped>, x: Stamped)
    ensures TokensFor(es + [x]) == TokensFor(es) + [TokenOf(x.event, x.at)]
  {
  }

  // What the steps outside the reader's turn do.
  lemma FlushAndWait(s: State, order: seq<U32>, dt: nat, duration: int)
    ensures Enabled(s, Wait(dt)) && Next(s, Wait(dt), duration) == s.(now := s.now + dt)
    ensures Enabled(s, FlushTokens(order)) <==> Listing(order, s.buffers.Keys)
    ensures Enabled(s, FlushTokens(order)) ==>
              Next(s, FlushTokens(order), duration)
                == s.(tokens := s.tokens + Flushed(order, s.buffers, s.comms), buffers := map[], comms := map[])
    ensures Enabled(s, FlushWindows(order)) <==> Listing(order, ExpiredPids(s.lives, s.now))
    ensures Enabled(s, FlushWindows(order)) ==>
              (forall p :: p in order ==> p in s.lives)
              && Next(s, FlushWindows(order), duration)
                   == s.(reports := s.reports + CloseAll(order, s.lives, s.now), lives := Unexpired(s.lives, s.now),
                         lastTick := s.now)
  {
  }

  lemma FirstStep(s: State, a: Action, rest: seq<Action>, duration: int)
    requires Enabled(s, a) && Allowed(Next(s, a, duration), rest, duration)
    ensures Allowed(s, [a] + rest, duration)
    ensures After(s, [a] + rest, duration) == After(Next(s, a, duration), rest, duration)
  {
    assert ([a] + rest)[1..] == rest;
  }

  lemma EmptyRing(s: State, duration: int)
    requires s.ring == []
    ensures Allowed(s, [], duration) && After(s, [], duration) == s && InRing(s.ring) == []
  {
  }

  // A turn of the reader: the record at the head of the ring, if it decodes,
  // goes to both collectors.
  lemma ReaderTurn(s: State, duration: int) returns (turn: seq<Action>, s': State)
    requires s.hand == Empty && s.ring != [] && s.ring[0].Submitted?
    ensures s'.hand == Empty && s'.ring == s.ring[1..] && s'.submitted == s.submitted
    ensures forall rest :: Allowed(s', rest, duration) ==>
              Allowed(s, turn + rest, duration) && After(s, turn + rest, duration) == After(s', rest, duration)
    ensures exists es :: Events(s'.toAggregator) == Events(s.toAggregator) + es
                         && Events(s'.toSeries) == Events(s.toSeries) + es && InRing(s.ring) == es + InRing(s'.ring)
  {
    hide Dispatch, Received, Allowed, After, Events;
    var s1 := Next(s, Read, duration);
    if s1.hand == Empty {
      turn, s' := [Read], s1;
      forall rest | Allowed(s', rest, duration)
        ensures Allowed(s, turn + rest, duration) && After(s, turn + rest, duration) == After(s', rest, duration)
      {
        FirstStep(s, Read, rest, duration);
      }
      assert Events(s'.toAggregator) == Events(s.toAggregator) + []
          && Events(s'.toSeries) == Events(s.toSeries) + [] && InRing(s.ring) == [] + InRing(s'.ring);
    } else {
      var s2 := Next(s1, SendToAggregator, duration);
      turn, s' := [Read] + ([SendToAggregator] + [SendToSeries]), Next(s2, SendToSeries, duration);
      forall rest | Allowed(s', rest, duration)
        ensures Allowed(s, turn + rest, duration) && After(s, turn + rest, duration) == After(s', rest, duration)
      {
        FirstStep(s2, SendToSeries, rest, duration);
        FirstStep(s1, SendToAggregator, [SendToSeries] + rest, duration);
        FirstStep(s, Read, [SendToAggregator] + ([SendToSeries] + rest), duration);
        assert [Read] + ([SendToAggregator] + ([SendToSeries] + rest)) == turn + rest;
      }
      var e := s1.hand.event;
      EventsAppend(s.toAggregator, Stamped(e, s.now));
      EventsAppend(s.toSeries, Stamped(e, s.now));
      assert InRing(s.ring) == [e] + InRing(s'.ring);
    }
  }

  // Whatever is in the ring can be read and delivered: some run of the reader
  // empties it, giving each record to both collectors in ring order.
  lemma {:induction false} RingDrains(s: State, duration: int) returns (run: seq<Action>)
    requires s.hand == Empty && forall i :: 0 <= i < |s.ring| ==> s.ring[i].Submitted?
    ensures Allowed(s, run, duration)
    ensures var s' := After(s, run, duration);
            && s'.ring == [] && s'.hand == Empty && s'.submitted == s.submitted
            && Events(s'.toAggregator) == Events(s.toAggregator) + InRing(s.ring)
            && Events(s'.toSeries) == Events(s.toSeries) + InRing(s.ring)
    decreases |s.ring|
  {
    hide Allowed, After, Events, InRing;
    if s.ring == [] {
      EmptyRing(s, duration);
      run := [];
    } else {
      var turn, s1 := ReaderTurn(s, duration);
      var rest := RingDrains(s1, duration);
      run := turn + rest;
    }
  }

  // ---- the invariant -------------------------------------------------------

  // Every submitted record is still in the ring, in the reader's hand, or was
  // delivered.
  ghost predicate RecordsConserved(s: State) {
    multiset(s.submitted)
      == multiset(InRing(s.ring)) + multiset(InHand(s.hand)) + multiset(Events(s.toAggregator))
  }

  // Every delivered event is in exactly one reported window or in the live
  // one, in arrival order.
  ghost predicate WindowsPartition(s: State) {
    forall pid :: ForPid(s.toAggregator, pid) == Reported(s.reports, pid) + Pending(s.lives, pid)
  }

  function LastComm(es: seq<Stamped>): seq<U8>
    requires es != []
  {
    CString(es[|es| - 1].event.comm)
  }

  // Flushed tokens followed by the buffer are exactly the tokens of the
  // delivered events, in arrival order.
  ghost predicate Lossless(s: State) {
    && s.buffers.Keys == s.comms.Keys
    && (forall pid :: TokensOf(s.tokens, pid) + Buffered(s.buffers, pid) == TokensFor(ForPid(s.toSeries, pid)))
    && (forall pid :: pid in s.comms ==>
          ForPid(s.toSeries, pid) != [] && s.comms[pid] == LastComm(ForPid(s.toSeries, pid)))
  }

  // The collectors have the same events, but for one the reader is between.
  ghost predicate InStep(s: State) {
    Events(s.toAggregator) == Events(s.toSeries) + if s.hand.HalfSent? then [s.hand.event] else []
  }

  // A window of pid, seen at time now.
  ghost predicate WindowOk(pid: U32, w: Live, now: int, duration: int) {
    && w.end == w.start + duration
    && w.events != [] && w.events[0].at == w.start
    && w.comm == CString(w.events[0].event.comm)
    && forall i :: 0 <= i < |w.events| ==> w.events[i].event.pid == pid && w.start <= w.events[i].at <= now
  }

  // A report's window had ended, and held only events received between its
  // start and the flush.
  ghost predicate ClosedOk(c: Closed, duration: int) {
    WindowOk(c.pid, c.window, c.at, duration) && c.window.end < c.at
  }

  ghost predicate ReportsInOrder(reports: seq<Closed>, now: int, duration: int) {
    && (forall i :: 0 <= i < |reports| ==> ClosedOk(reports[i], duration) && reports[i].at <= now)
    && forall i, j :: 0 <= i < j < |reports| && reports[i].pid == reports[j].pid ==>
         reports[i].at <= reports[j].window.start
  }

  ghost predicate LivesAfterReports(lives: Lives, reports: seq<Closed>, now: int, duration: int) {
    && (forall pid :: pid in lives ==> WindowOk(pid, lives[pid], now, duration))
    && forall i :: 0 <= i < |reports| && reports[i].pid in lives ==> reports[i].at <= lives[reports[i].pid].start
  }

  // A pid's windows never overlap, live or reported.
  ghost predicate Timeline(s: State, duration: int) {
    ReportsInOrder(s.reports, s.now, duration) && LivesAfterReports(s.lives, s.reports, s.now, duration)
  }

  ghost predicate Inv(s: State, duration: int) {
    RecordsConserved(s) && WindowsPartition(s) && Lossless(s) && InStep(s) && Timeline(s, duration)
  }

  lemma InitInv(now: int, duration: int)
    ensures Inv(Init(now), duration)
  {
    assert Events([]) == [];
    assert TokensFor([]) == [];
  }

  // ---- every step keeps it ---------------------------------------------------

  lemma RecordsConservedStep(s: State, a: Action, duration: int)
    requires RecordsConserved(s) && Enabled(s, a)
    ensures RecordsConserved(Next(s, a, duration))
  {
    hide InRing, InHand, ToHand, Dispatch, Layout, Events, Received, Unexpired, Flushed, Listing;
    match a
    case Reserve => InRingReserve(s.ring);
    case Submit(i, e, p) => InRingSubmit(s.ring, i, e, p);
    case Read =>
      InRingRead(s.ring);
      assert InHand(s.hand) == [] by { EmptyHand(); }
    case SendToAggregator =>
      EventsAppend(s.toAggregator, Stamped(s.hand.event, s.now));
      HeldEvent(s.hand.event);
    case SendToSeries =>
      HeldEvent(s.hand.event);
      EmptyHand();
    case _ =>
  }

  lemma EmptyHand()
    ensures InHand(Empty) == []
  {
  }

  lemma HeldEvent(e: Event)
    ensures InHand(Hand.Decoded(e)) == [e] && InHand(HalfSent(e)) == []
  {
  }

  lemma DeliveryPartitions(s: State, e: Event, duration: int)
    requires WindowsPartition(s)
    ensures forall pid :: ForPid(s.toAggregator + [Stamped(e, s.now)], pid)
                       == Reported(s.reports, pid) + Pending(Received(s.lives, e, s.now, duration), pid)
  {
    hide ForPid, Reported;
    var x := Stamped(e, s.now);
    forall pid ensures ForPid(s.toAggregator + [x], pid)
                    == Reported(s.reports, pid) + Pending(Received(s.lives, e, s.now, duration), pid) {
      ForPidAppend(s.toAggregator, x, pid);
    }
  }

  lemma FlushPartitions(s: State, order: seq<U32>)
    requires WindowsPartition(s) && Enabled(s, FlushWindows(order))
    ensures forall pid :: ForPid(s.toAggregator, pid)
                       == Reported(s.reports + CloseAll(order, s.lives, s.now), pid)
                          + Pending(Unexpired(s.lives, s.now), pid)
  {
    hide ForPid, Reported;
    forall pid ensures ForPid(s.toAggregator, pid)
                    == Reported(s.reports + CloseAll(order, s.lives, s.now), pid)
                       + Pending(Unexpired(s.lives, s.now), pid) {
      ReportedCloseAll(s.reports, order, s.lives, s.now, pid);
      assert pid in order <==> pid in ExpiredPids(s.lives, s.now);
    }
  }

  lemma WindowsPartitionStep(s: State, a: Action, duration: int)
    requires WindowsPartition(s) && Enabled(s, a)
    ensures WindowsPartition(Next(s, a, duration))
  {
    hide ForPid, Reported, Pending, Received, Unexpired, Listing;
    match a
    case SendToAggregator => DeliveryPartitions(s, s.hand.event, duration);
    case FlushWindows(order) => FlushPartitions(s, order);
    case _ =>
  }

  lemma DeliveredTokens(buffers: Buffers, tokens: seq<GpuEvent>, es: seq<Stamped>, x: Stamped, pid: U32)
    requires TokensOf(tokens, pid) + Buffered(buffers, pid) == TokensFor(ForPid(es, pid))
    ensures TokensOf(tokens, pid)
          + Buffered(buffers[x.event.pid := Buffered(buffers, x.event.pid) + [TokenOf(x.event, x.at)]], pid)
         == TokensFor(ForPid(es + [x], pid))
  {
    hide ForPid, TokensFor, TokensOf, TokenOf;
    ForPidAppend(es, x, pid);
    TokensForAppend(ForPid(es, pid), x);
  }

  lemma DeliveryIsLossless(s: State, duration: int)
    requires Lossless(s) && Enabled(s, SendToSeries)
    ensures Lossless(Next(s, SendToSeries, duration))
  {
    hide ForPid, TokensFor, TokensOf, TokenOf, Buffered, CString, LastComm;
    var x := Stamped(s.hand.event, s.now);
    forall pid {
      DeliveredTokens(s.buffers, s.tokens, s.toSeries, x, pid);
    }
    DeliveredComms(s.comms, s.toSeries, x);
  }

  lemma DeliveredComms(comms: Comms, es: seq<Stamped>, x: Stamped)
    requires forall pid :: pid in comms ==> ForPid(es, pid) != [] && comms[pid] == LastComm(ForPid(es, pid))
    ensures var comms' := comms[x.event.pid := CString(x.event.comm)];
            forall pid :: pid in comms' ==>
              ForPid(es + [x], pid) != [] && comms'[pid] == LastComm(ForPid(es + [x], pid))
  {
    hide ForPid;
    forall pid {
      ForPidAppend(es, x, pid);
    }
  }

  lemma FlushIsLossless(s: State, order: seq<U32>, duration: int)
    requires Lossless(s) && Enabled(s, FlushTokens(order))
    ensures Lossless(Next(s, FlushTokens(order), duration))
  {
    hide ForPid, TokensFor, TokensOf, Flushed;
    var s' := Next(s, FlushTokens(order), duration);
    forall pid ensures TokensOf(s'.tokens, pid) + Buffered(s'.buffers, pid) == TokensFor(ForPid(s.toSeries, pid)) {
      TokensOfConcat(s.tokens, Flushed(order, s.buffers, s.comms), pid);
      FlushedTokens(order, s.buffers, s.comms, pid);
      assert pid in order <==> pid in s.buffers;
    }
  }

  lemma LosslessStep(s: State, a: Action, duration: int)
    requires Lossless(s) && Enabled(s, a)
    ensures Lossless(Next(s, a, duration))
  {
    hide ForPid, TokensFor, TokensOf, Flushed, Buffered, LastComm, Listing;
    match a
    case SendToSeries => DeliveryIsLossless(s, duration);
    case FlushTokens(order) => FlushIsLossless(s, order, duration);
    case _ =>
  }

  lemma InStepStep(s: State, a: Action, duration: int)
    requires InStep(s) && Enabled(s, a)
    ensures InStep(Next(s, a, duration))
  {
    hide Events, Received, Unexpired, Flushed, Listing, Layout, Dispatch;
    match a
    case SendToAggregator => EventsAppend(s.toAggregator, Stamped(s.hand.event, s.now));
    case SendToSeries => EventsAppend(s.toSeries, Stamped(s.hand.event, s.now));
    case _ =>
  }

  lemma WindowsAge(lives: Lives, reports: seq<Closed>, now: int, later: int, duration: int)
    requires now <= later
    requires ReportsInOrder(reports, now, duration) && LivesAfterReports(lives, reports, now, duration)
    ensures ReportsInOrder(reports, later, duration) && LivesAfterReports(lives, reports, later, duration)
  {
  }

  lemma DeliveryExtendsWindow(lives: Lives, reports: seq<Closed>, e: Event, now: int, duration: int)
    requires ReportsInOrder(reports, now, duration) && LivesAfterReports(lives, reports, now, duration)
    ensures LivesAfterReports(Received(lives, e, now, duration), reports, now, duration)
  {
    var w := Received(lives, e, now, duration)[e.pid];
    assert WindowOk(e.pid, w, now, duration);
  }

  lemma FlushClosesWindows(s: State, order: seq<U32>, duration: int)
    requires Timeline(s, duration) && Enabled(s, FlushWindows(order))
    ensures Timeline(Next(s, FlushWindows(order), duration), duration)
  {
    hide WindowOk;
    var more := CloseAll(order, s.lives, s.now);
    CloseAllShape(order, s.lives, s.now);
    forall i | 0 <= i < |more|
      ensures more[i].pid in ExpiredPids(s.lives, s.now) && more[i].window == s.lives[more[i].pid]
    {
      assert order[i] in order;
    }
    forall i, j | 0 <= i < j < |more| ensures more[i].pid != more[j].pid {
      assert order[i] != order[j];
    }
    var all := s.reports + more;
    forall i, j | 0 <= i < j < |all| && all[i].pid == all[j].pid ensures all[i].at <= all[j].window.start {
      if j >= |s.reports| {
        assert all[j] == more[j - |s.reports|];
        assert i < |s.reports|;
      }
    }
  }

  lemma TimelineStep(s: State, a: Action, duration: int)
    requires Timeline(s, duration) && Enabled(s, a)
    ensures Timeline(Next(s, a, duration), duration)
  {
    hide ReportsInOrder, LivesAfterReports, Received, Unexpired, Flushed, Listing;
    match a
    case Wait(dt) => WindowsAge(s.lives, s.reports, s.now, s.now + dt, duration);
    case SendToAggregator => DeliveryExtendsWindow(s.lives, s.reports, s.hand.event, s.now, duration);
    case FlushWindows(order) => FlushClosesWindows(s, order, duration);
    case _ =>
  }

  lemma InvStep(s: State, a: Action, duration: int)
    requires Inv(s, duration) && Enabled(s, a)
    ensures Inv(Next(s, a, duration), duration)
  {
    hide Next, RecordsConserved, WindowsPartition, Lossless, InStep, Timeline;
    RecordsConservedStep(s, a, duration);
    WindowsPartitionStep(s, a, duration);
    LosslessStep(s, a, duration);
    InStepStep(s, a, duration);
    TimelineStep(s, a, duration);
  }

  // The invariant holds after every run, of any length and interleaving.
  lemma {:induction false} RunsKeepInv(s: State, run: seq<Action>, duration: int)
    requires Inv(s, duration) && Allowed(s, run, duration)
    ensures Inv(After(s, run, duration), duration)
    decreases |run|
  {
    if run != [] {
      hide Inv, Next;
      InvStep(s, run[0], duration);
      RunsKeepInv(Next(s, run[0], duration), run[1..], duration);
    }
  }

  // A batch the aggregator's Flush returns is one such step: its events report,
  // one by one, the windows the step closes.
  lemma FlushIsAStep(s: State, events: seq<GpuEvent>)
    requires FlushReports(events, s.lives, s.now)
    ensures Enabled(s, FlushWindows(PidsOf(events)))
    ensures var closed := CloseAll(PidsOf(events), s.lives, s.now);
            |closed| == |events| &&
            forall i :: 0 <= i < |events| ==> Reports(events[i], closed[i].pid, closed[i].window)
  {
    hide Reports;
    forall p | p in PidsOf(events) ensures p in s.lives {
      assert p in ExpiredPids(s.lives, s.now);
    }
    CloseAllShape(PidsOf(events), s.lives, s.now);
  }

  // Each flushed event carries the name its process had at its last event
  // before the flush.
  lemma FlushedComms(s: State, order: seq<U32>, ev: GpuEvent)
    requires Lossless(s) && Enabled(s, FlushTokens(order))
    requires ev in Flushed(order, s.buffers, s.comms)
    ensures ForPid(s.toSeries, ev.pid) != [] && ev.comm == LastComm(ForPid(s.toSeries, ev.pid))
  {
    hide ForPid, Flushed;
    FlushedShape(order, s.buffers, s.comms);
  }
}
