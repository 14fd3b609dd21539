// Batches on their way to the server: each collector's ticker loop hands a
// batch over an unbuffered channel to its loader's forwarding goroutine, that
// one over the loader's unbuffered channel to the client's forwarder, which
// puts it in a bounded channel that the client's send loop empties. A
// rendezvous on an unbuffered channel moves a batch from one goroutine's hand
// to the next one's, and a goroutine holds one batch at a time.
module Pipeline {
  import opened Wire

  const CAPACITY: nat := 500

  // A collector of a loader.
  datatype Source = Source(loader: nat, collector: nat)

  datatype Parcel = Parcel(source: Source, batch: GpuBatch)

  datatype State = State(
    runners: map<Source, Parcel>,
    fanIns: map<Source, Parcel>,
    forwarders: map<nat, Parcel>,
    eventCh: seq<Parcel>,
    sending: bool,
    // history
    flushed: seq<Parcel>,
    sent: seq<Parcel>)

  datatype Action =
    | Flush(source: Source, batch: GpuBatch)
    | ToLoader(source: Source)
    | ToClient(source: Source)
    | ToChannel(loader: nat)
    | Send(unavailable: bool)

  const INIT: State := State(map[], map[], map[], [], true, [], [])

  // A ticker loop blocked on its channel flushes nothing; a full channel blocks
  // its forwarder; the send loop ends for good once the server is unavailable.
  predicate Enabled(s: State, a: Action) {
    match a
    case Flush(src, _) => src !in s.runners
    case ToLoader(src) => src in s.runners && src !in s.fanIns
    case ToClient(src) => src in s.fanIns && src.loader !in s.forwarders
    case ToChannel(l) => l in s.forwarders && |s.eventCh| < CAPACITY
    case Send(_) => s.sending && s.eventCh != []
  }

  // Actions that cannot happen leave the state unchanged.
  function Next(s: State, a: Action): State {
    if !Enabled(s, a) then s
    else
      match a
      case Flush(src, b) =>
        s.(runners := s.runners[src := Parcel(src, b)], flushed := s.flushed + [Parcel(src, b)])
      case ToLoader(src) =>
        s.(runners := s.runners - {src}, fanIns := s.fanIns[src := s.runners[src]])
      case ToClient(src) =>
        s.(fanIns := s.fanIns - {src}, forwarders := s.forwarders[src.loader := s.fanIns[src]])
      case ToChannel(l) =>
        s.(forwarders := s.forwarders - {l}, eventCh := s.eventCh + [s.forwarders[l]])
      case Send(unavailable) =>
        s.(eventCh := s.eventCh[1..], sent := s.sent + [s.eventCh[0]], sending := !unavailable)
  }

  function After(s: State, run: seq<Action>): State {
    if run == [] then s else Next(After(s, run[..|run| - 1]), run[|run| - 1])
  }

  // ---- first in, first out --------------------------------------------------

  function Of(ps: seq<Parcel>, src: Source): seq<GpuBatch> {
    if ps == [] then []
    else (if ps[0].source == src then [ps[0].batch] else []) + Of(ps[1..], src)
  }

  function Held<K>(hands: map<K, Parcel>, k: K, src: Source): seq<GpuBatch> {
    if k in hands then Of([hands[k]], src) else []
  }

  // src's batches still on the way, oldest first.
  function InFlight(s: State, src: Source): seq<GpuBatch> {
    Of(s.eventCh, src) + Held(s.forwarders, src.loader, src) + Held(s.fanIns, src, src) + Held(s.runners, src, src)
  }

  // Batches are held by their own collector's and loader's goroutines.
  ghost predicate InPlace(s: State) {
    && (forall src :: src in s.runners ==> s.runners[src].source == src)
    && (forall src :: src in s.fanIns ==> s.fanIns[src].source == src)
    && (forall l :: l in s.forwarders ==> s.forwarders[l].source.loader == l)
  }

  ghost predicate Fifo(s: State) {
    forall src :: Of(s.flushed, src) == Of(s.sent, src) + InFlight(s, src)
  }

  ghost predicate Inv(s: State) {
    InPlace(s) && Fifo(s) && |s.eventCh| <= CAPACITY
  }

  lemma {:induction false} OfConcat(a: seq<Parcel>, b: seq<Parcel>, src: Source)
    ensures Of(a + b, src) == Of(a, src) + Of(b, src)
  {
    hide Of;
    if a == [] {
      assert a + b == b && Of(a, src) == [] by { OfNone(src); }
    } else {
      OfConcat(a[1..], b, src);
      assert (a + b)[1..] == a[1..] + b;
      OfUnfold(a, src);
      OfUnfold(a + b, src);
    }
  }

  lemma OfNone(src: Source)
    ensures Of([], src) == []
  {
  }

  lemma OfUnfold(ps: seq<Parcel>, src: Source)
    requires ps != []
    ensures Of(ps, src) == (if ps[0].source == src then [ps[0].batch] else []) + Of(ps[1..], src)
  {
  }

  lemma OfOne(p: Parcel, src: Source)
    ensures Of([p], src) == if p.source == src then [p.batch] else []
  {
  }

  lemma OfNext(ps: seq<Parcel>, p: Parcel, src: Source)
    ensures Of(ps + [p], src) == Of(ps, src) + if p.source == src then [p.batch] else []
  {
    OfConcat(ps, [p], src);
    OfOne(p, src);
  }

  lemma OfHead(ps: seq<Parcel>, src: Source)
    requires ps != []
    ensures Of(ps, src) == Of([ps[0]], src) + Of(ps[1..], src)
  {
    assert ps == [ps[0]] + ps[1..];
    OfConcat([ps[0]], ps[1..], src);
  }

  // What a goroutine holds for src, as its hand fills and empties.
  lemma HeldUpdate<K>(hands: map<K, Parcel>, k: K, p: Parcel, src: Source)
    requires k !in hands
    ensures Held(hands, k, src) == [] && Held(hands[k := p], k, src) == if p.source == src then [p.batch] else []
    ensures forall j :: j != k ==> Held(hands[k := p], j, src) == Held(hands, j, src)
  {
    OfOne(p, src);
  }

  lemma HeldRemove<K>(hands: map<K, Parcel>, k: K, src: Source)
    requires k in hands
    ensures Held(hands, k, src) == if hands[k].source == src then [hands[k].batch] else []
    ensures Held(hands - {k}, k, src) == []
    ensures forall j :: j != k ==> Held(hands - {k}, j, src) == Held(hands, j, src)
  {
    OfOne(hands[k], src);
  }

  // A move between two stages leaves every source's order alone.
  lemma FlightStep(s: State, a: Action, src: Source)
    requires InPlace(s) && Enabled(s, a)
    ensures match a
            case Flush(from, b) => InFlight(Next(s, a), src) == InFlight(s, src) + if src == from then [b] else []
            case Send(_) => InFlight(s, src) == Of([s.eventCh[0]], src) + InFlight(Next(s, a), src)
            case _ => InFlight(Next(s, a), src) == InFlight(s, src)
  {
    hide Of, Held;
    match a
    case Flush(from, b) =>
      HeldUpdate(s.runners, from, Parcel(from, b), src);
    case ToLoader(from) =>
      HeldRemove(s.runners, from, src);
      HeldUpdate(s.fanIns, from, s.runners[from], src);
    case ToClient(from) =>
      HeldRemove(s.fanIns, from, src);
      HeldUpdate(s.forwarders, from.loader, s.fanIns[from], src);
    case ToChannel(l) =>
      HeldRemove(s.forwarders, l, src);
      OfNext(s.eventCh, s.forwarders[l], src);
    case Send(_) =>
      OfHead(s.eventCh, src);
  }

  lemma PlacesStep(s: State, a: Action)
    requires InPlace(s) && |s.eventCh| <= CAPACITY
    ensures InPlace(Next(s, a)) && |Next(s, a).eventCh| <= 500
  {
  }

  lemma FifoStep(s: State, a: Action, src: Source)
    requires InPlace(s) && Enabled(s, a) && Of(s.flushed, src) == Of(s.sent, src) + InFlight(s, src)
    ensures var s' := Next(s, a);
            Of(s'.flushed, src) == Of(s'.sent, src) + InFlight(s', src)
  {
    hide Of, InFlight, InPlace;
    FlightStep(s, a, src);
    match a
    case Flush(from, b) =>
      OfConcat(s.flushed, [Parcel(from, b)], src);
      OfOne(Parcel(from, b), src);
    case Send(_) => OfConcat(s.sent, [s.eventCh[0]], src);
    case _ =>
  }

  lemma InvStep(s: State, a: Action)
    requires Inv(s)
    ensures Inv(Next(s, a))
  {
    hide Of, InFlight, InPlace, Next;
    PlacesStep(s, a);
    if Enabled(s, a) {
      forall src ensures Of(Next(s, a).flushed, src) == Of(Next(s, a).sent, src) + InFlight(Next(s, a), src) {
        FifoStep(s, a, src);
      }
    } else {
      NothingHappens(s, a);
    }
  }

  lemma NothingHappens(s: State, a: Action)
    requires !Enabled(s, a)
    ensures Next(s, a) == s
  {
  }

  lemma {:induction false} RunsKeepInv(s: State, run: seq<Action>)
    requires Inv(s)
    ensures Inv(After(s, run))
  {
    if run != [] {
      hide Inv, Next;
      RunsKeepInv(s, run[..|run| - 1]);
      InvStep(After(s, run[..|run| - 1]), run[|run| - 1]);
    }
  }

  // Over every run, through blocked goroutines, a full channel and a lost
  // server: each collector's flushed batches are, in order and without loss or
  // duplication, those handed to the sender followed by those in flight, and
  // the channel never holds more than 500.
  lemma PipelineIsFifo(run: seq<Action>)
    ensures var s := After(INIT, run);
            && (forall src :: Of(s.flushed, src) == Of(s.sent, src) + InFlight(s, src))
            && |s.eventCh| <= 500
  {
    forall src ensures Of(INIT.flushed, src) == Of(INIT.sent, src) + InFlight(INIT, src) {
    }
    hide Of, InFlight, After;
    RunsKeepInv(INIT, run);
  }

  // ---- blocking and loss --------------------------------------------------------

  // A ticker loop that holds no batch can flush, and one that holds a batch
  // cannot; a forwarder can reach the channel exactly while it holds fewer than
  // 500.
  lemma WhoCanMove(s: State, src: Source, b: GpuBatch, l: nat)
    ensures Enabled(s, Flush(src, b)) <==> src !in s.runners
    ensures src !in s.runners ==>
              var s' := Next(s, Flush(src, b));
              s'.flushed == s.flushed + [Parcel(src, b)] && s'.runners == s.runners[src := Parcel(src, b)]
    ensures l in s.forwarders ==> (Enabled(s, ToChannel(l)) <==> |s.eventCh| < 500)
  {
  }

  // Once the server is found unavailable nothing is sent any more.
  lemma {:induction false} NothingSentAfterLoss(s: State, run: seq<Action>)
    requires !s.sending
    ensures !After(s, run).sending && After(s, run).sent == s.sent
  {
    if run != [] {
      NothingSentAfterLoss(s, run[..|run| - 1]);
    }
  }

  // A send hands over the oldest batch, and only losing the server stops the
  // loop.
  lemma SendTakesTheOldest(s: State, unavailable: bool)
    requires s.sending && s.eventCh != []
    ensures var s' := Next(s, Send(unavailable));
            s'.sent == s.sent + [s.eventCh[0]] && s'.eventCh == s.eventCh[1..] && s'.sending == !unavailable
  {
  }

  // Four moves take one batch from an idle collector to the channel.
  function OneMore(src: Source, b: GpuBatch): seq<Action> {
    [Flush(src, b)] + [ToLoader(src)] + [ToClient(src)] + [ToChannel(src.loader)]
  }

  function Many(src: Source, b: GpuBatch, n: nat): seq<Action> {
    if n == 0 then [] else Many(src, b, n - 1) + OneMore(src, b)
  }

  lemma AfterAppend(s: State, run: seq<Action>, a: Action)
    ensures After(s, run + [a]) == Next(After(s, run), a)
  {
    assert (run + [a])[..|run|] == run;
  }

  lemma FourMoves(s: State, run: seq<Action>, src: Source, b: GpuBatch)
    requires var t := After(s, run);
             src !in t.runners && src !in t.fanIns && src.loader !in t.forwarders && |t.eventCh| < 500
    ensures var t, t' := After(s, run), After(s, run + OneMore(src, b));
            && t'.eventCh == t.eventCh + [Parcel(src, b)] && t'.sent == t.sent
            && t'.runners == t.runners && t'.fanIns == t.fanIns && t'.forwarders == t.forwarders
  {
    hide After, Next;
    AfterAppend(s, run, Flush(src, b));
    AfterAppend(s, run + [Flush(src, b)], ToLoader(src));
    AfterAppend(s, run + [Flush(src, b)] + [ToLoader(src)], ToClient(src));
    AfterAppend(s, run + [Flush(src, b)] + [ToLoader(src)] + [ToClient(src)], ToChannel(src.loader));
    assert run + OneMore(src, b)
        == run + [Flush(src, b)] + [ToLoader(src)] + [ToClient(src)] + [ToChannel(src.loader)];
    FourSteps(After(s, run), src, b);
  }

  lemma FourSteps(t: State, src: Source, b: GpuBatch)
    requires src !in t.runners && src !in t.fanIns && src.loader !in t.forwarders && |t.eventCh| < 500
    ensures var t' := Next(Next(Next(Next(t, Flush(src, b)), ToLoader(src)), ToClient(src)), ToChannel(src.loader));
            && t'.eventCh == t.eventCh + [Parcel(src, b)] && t'.sent == t.sent
            && t'.runners == t.runners && t'.fanIns == t.fanIns && t'.forwarders == t.forwarders
  {
    var p := Parcel(src, b);
    assert t.runners[src := p] - {src} == t.runners && t.fanIns[src := p] - {src} == t.fanIns;
    assert t.forwarders[src.loader := p] - {src.loader} == t.forwarders;
  }

  // While nothing is sent, 500 batches fill the channel and no more fit.
  lemma {:induction false} ChannelFills(src: Source, b: GpuBatch, n: nat)
    requires n <= 500
    ensures var s := After(INIT, Many(src, b, n));
            && |s.eventCh| == n && s.runners == map[] && s.fanIns == map[] && s.forwarders == map[]
            && (forall l: nat, p: Parcel :: n == 500 ==> !Enabled(s.(forwarders := map[l := p]), ToChannel(l)))
  {
    hide After, Next;
    if n == 0 {
      NothingDone();
    } else {
      ChannelFills(src, b, n - 1);
      FourMoves(INIT, Many(src, b, n - 1), src, b);
    }
  }

  lemma NothingDone()
    ensures After(INIT, []) == INIT
  {
  }

  // ---- nothing gets stuck -----------------------------------------------------

  // The moves still to be made before everything is sent.
  function MovesLeft(s: State): nat {
    4 * |s.runners| + 3 * |s.fanIns| + 2 * |s.forwarders| + |s.eventCh|
  }

  lemma MapRemove<K>(m: map<K, Parcel>, k: K)
    requires k in m
    ensures |m - {k}| == |m| - 1
  {
    assert (m - {k}).Keys == m.Keys - {k};
    assert |(m - {k}).Keys| == |m.Keys| - 1;
  }

  lemma MapAdd<K>(m: map<K, Parcel>, k: K, p: Parcel)
    requires k !in m
    ensures |m[k := p]| == |m| + 1
  {
    assert m[k := p].Keys == m.Keys + {k};
    assert |m[k := p].Keys| == |m.Keys| + 1;
  }

  // Every move but a flush brings a batch one stage nearer the server.
  lemma MovesDecrease(s: State, a: Action)
    requires Enabled(s, a) && !a.Flush?
    ensures MovesLeft(Next(s, a)) == MovesLeft(s) - 1
  {
    match a
    case ToLoader(src) =>
      MapRemove(s.runners, src);
      MapAdd(s.fanIns, src, s.runners[src]);
    case ToClient(src) =>
      MapRemove(s.fanIns, src);
      MapAdd(s.forwarders, src.loader, s.fanIns[src]);
    case ToChannel(l) =>
      MapRemove(s.forwarders, l);
    case Send(_) =>
  }

  // While the server is reachable some batch can always move: there is no
  // deadlock.
  lemma SomethingMoves(s: State) returns (a: Action)
    requires s.sending && |s.eventCh| <= 500 && MovesLeft(s) > 0
    ensures Enabled(s, a) && !a.Flush? && Next(s, a).sending
  {
    if s.eventCh != [] {
      a := Send(false);
    } else if s.forwarders != map[] {
      var l :| l in s.forwarders;
      a := ToChannel(l);
    } else if s.fanIns != map[] {
      var src :| src in s.fanIns;
      a := ToClient(src);
    } else {
      assert s.runners != map[];
      var src :| src in s.runners;
      a := ToLoader(src);
    }
  }

  // Moves of batches, one after the other, with the server reachable.
  ghost predicate Draining(s: State, run: seq<Action>) {
    run == [] || (
      var init, a := run[..|run| - 1], run[|run| - 1];
      Draining(s, init) && Enabled(After(s, init), a) && !a.Flush? && a != Send(true))
  }

  lemma {:induction false} DrainingCounts(s: State, run: seq<Action>)
    requires Draining(s, run)
    ensures |run| <= MovesLeft(s) && MovesLeft(After(s, run)) == MovesLeft(s) - |run|
    ensures After(s, run).flushed == s.flushed
  {
    if run != [] {
      hide MovesLeft;
      var init, a := run[..|run| - 1], run[|run| - 1];
      DrainingCounts(s, init);
      MovesDecrease(After(s, init), a);
    }
  }

  lemma NothingInFlight(s: State, src: Source)
    requires MovesLeft(s) == 0
    ensures InFlight(s, src) == []
  {
    assert |s.runners| == |s.fanIns| == |s.forwarders| == |s.eventCh| == 0;
  }

  // Delivery: whichever moves are made, in any order, once as many have been
  // made as were left, everything flushed has been handed to the sender.
  lemma DrainedMeansDelivered(s: State, run: seq<Action>, src: Source)
    requires Inv(s) && Draining(s, run) && |run| == MovesLeft(s)
    ensures Of(After(s, run).sent, src) == Of(s.flushed, src)
  {
    hide Of, InFlight, MovesLeft, After, Draining;
    DrainingCounts(s, run);
    RunsKeepInv(s, run);
    NothingInFlight(After(s, run), src);
  }
}
