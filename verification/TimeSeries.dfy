// The time-series collector: every event becomes one token, kept per process
// in arrival order until the next flush.
module TimeSeries {
  import opened Wrappers
  import opened Arith
  import opened Records
  import opened Wire
  import opened Orders

  type Buffers = map<U32, seq<Token>>
  type Comms = map<U32, seq<U8>>

  function TokenOf(e: Event, now: int): Token {
    match e
    case KernelLaunch(_, _, _, _, _, _, _, _, _, _, threads) =>
      Token(now, EVENT_GPU_KERNEL_LAUNCH, threads as real, 0)
    case MemAlloc(_, _, n) =>
      Token(now, EVENT_GPU_MALLOC, n as real, 0)
    case Memcpy(_, _, n, kind) =>
      var dir := if kind == DIR_HTOD then DIR_HTOD else DIR_DTOH;
      Token(now, EVENT_GPU_MEMCPY, n as real, dir)
    case StreamSync(_, _, _, _, delta) =>
      Token(now, EVENT_GPU_STREAM_SYNC, delta as real, 0)
  }

  // A token holds the event's type from 1 to 4, its number, and for a copy its
  // direction, 0 to the device and 1 back; the others have direction 0.
  lemma TokenHolds(e: Event, now: int)
    ensures match e
            case KernelLaunch(_, _, _, _, _, _, _, _, _, _, n) => TokenOf(e, now) == Token(now, 1, n as real, 0)
            case MemAlloc(_, _, n) => TokenOf(e, now) == Token(now, 2, n as real, 0)
            case Memcpy(_, _, n, kind) => TokenOf(e, now) == Token(now, 3, n as real, if kind == 0 then 0 else 1)
            case StreamSync(_, _, _, _, n) => TokenOf(e, now) == Token(now, 4, n as real, 0)
  {
  }

  function EventToToken(ev: Incoming, now: int): Option<Token> {
    match ev
    case Gpu(e) => Some(TokenOf(e, now))
    case Foreign => None
  }

  function Buffered(buffers: Buffers, pid: U32): seq<Token> {
    if pid in buffers then buffers[pid] else []
  }

  function CommOf(comms: Comms, pid: U32): seq<U8> {
    if pid in comms then comms[pid] else []
  }

  function TokenEvent(pid: U32, comm: seq<U8>, tk: Token): GpuEvent {
    GpuEvent(pid, comm, "timeserie", TokenPayload(tk))
  }

  function TokenEvents(pid: U32, comm: seq<U8>, tokens: seq<Token>): (es: seq<GpuEvent>)
    ensures |es| == |tokens|
    ensures forall i :: 0 <= i < |es| ==> es[i] == TokenEvent(pid, comm, tokens[i])
  {
    seq(|tokens|, i requires 0 <= i < |tokens| => TokenEvent(pid, comm, tokens[i]))
  }

  // The events of one flush that visits the buffers in the given order.
  function Flushed(order: seq<U32>, buffers: Buffers, comms: Comms): seq<GpuEvent> {
    if order == [] then []
    else
      var pid := order[|order| - 1];
      Flushed(order[..|order| - 1], buffers, comms)
      + TokenEvents(pid, CommOf(comms, pid), Buffered(buffers, pid))
  }

  lemma FlushedNothing(buffers: Buffers, comms: Comms)
    ensures Flushed([], buffers, comms) == []
  {
  }

  lemma FlushedAppend(order: seq<U32>, pid: U32, buffers: Buffers, comms: Comms)
    ensures Flushed(order + [pid], buffers, comms)
         == Flushed(order, buffers, comms) + TokenEvents(pid, CommOf(comms, pid), Buffered(buffers, pid))
  {
    assert (order + [pid])[..|order|] == order;
  }

  lemma BufferedAt(buffers: Buffers, pid: U32)
    requires pid in buffers
    ensures Buffered(buffers, pid) == buffers[pid]
  {
  }

  // pid's tokens in a list of emitted events, in order.
  function TokensOf(events: seq<GpuEvent>, pid: U32): seq<Token> {
    if events == [] then []
    else
      var ev := events[|events| - 1];
      TokensOf(events[..|events| - 1], pid)
      + if ev.pid == pid && ev.payload.TokenPayload? then [ev.payload.token] else []
  }

  lemma NoTokens(pid: U32)
    ensures TokensOf([], pid) == []
  {
  }

  lemma TokensOfAppend(events: seq<GpuEvent>, ev: GpuEvent, pid: U32)
    ensures TokensOf(events + [ev], pid)
         == TokensOf(events, pid) + if ev.pid == pid && ev.payload.TokenPayload? then [ev.payload.token] else []
  {
    assert (events + [ev])[..|events|] == events;
  }

  lemma {:induction false} TokensOfConcat(a: seq<GpuEvent>, b: seq<GpuEvent>, pid: U32)
    ensures TokensOf(a + b, pid) == TokensOf(a, pid) + TokensOf(b, pid)
  {
    hide TokensOf;
    if b == [] {
      NoTokens(pid);
      assert a + b == a;
    } else {
      var init, ev := b[..|b| - 1], b[|b| - 1];
      TokensOfConcat(a, init, pid);
      TokensOfAppend(a + init, ev, pid);
      TokensOfAppend(init, ev, pid);
      assert a + b == (a + init) + [ev] && b == init + [ev];
    }
  }

  lemma {:induction false} TokensOfTokenEvents(p: U32, comm: seq<U8>, tokens: seq<Token>, pid: U32)
    ensures TokensOf(TokenEvents(p, comm, tokens), pid) == if p == pid then tokens else []
  {
    if tokens != [] {
      var init := tokens[..|tokens| - 1];
      TokensOfTokenEvents(p, comm, init, pid);
      assert TokenEvents(p, comm, tokens)[..|init|] == TokenEvents(p, comm, init);
    }
  }

  // Whatever order a flush visits the buffers in, each pid's tokens come out
  // complete and in their own order.
  lemma {:induction false} FlushedTokens(order: seq<U32>, buffers: Buffers, comms: Comms, pid: U32)
    requires Distinct(order)
    ensures TokensOf(Flushed(order, buffers, comms), pid) == if pid in order then Buffered(buffers, pid) else []
  {
    hide Flushed, TokensOf, TokenEvents, CommOf, Distinct;
    if order == [] {
      FlushedNothing(buffers, comms);
      NoTokens(pid);
    } else {
      var init, p := order[..|order| - 1], order[|order| - 1];
      DistinctInit(order, pid);
      FlushedTokens(init, buffers, comms, pid);
      FlushedAppend(init, p, buffers, comms);
      TokensOfConcat(Flushed(init, buffers, comms), TokenEvents(p, CommOf(comms, p), Buffered(buffers, p)), pid);
      TokensOfTokenEvents(p, CommOf(comms, p), Buffered(buffers, p), pid);
      assert order == init + [p];
    }
  }

  lemma {:induction false} FlushedShape(order: seq<U32>, buffers: Buffers, comms: Comms)
    ensures forall ev :: ev in Flushed(order, buffers, comms) ==>
              && ev.pid in order && ev.comm == CommOf(comms, ev.pid) && (ev.pid in comms ==> ev.comm == comms[ev.pid])
              && ev.eventType == "timeserie" && ev.payload.TokenPayload?
  {
    if order != [] {
      FlushedShape(order[..|order| - 1], buffers, comms);
    }
  }

  lemma {:induction false} FlushedNonEmpty(order: seq<U32>, buffers: Buffers, comms: Comms)
    requires forall p :: p in order ==> Buffered(buffers, p) != []
    ensures Flushed(order, buffers, comms) == [] <==> order == []
  {
    if order != [] {
      assert order[|order| - 1] in order;
    }
  }

  class TimeSeriesCollector {
    var buffers: Buffers
    var comms: Comms
    const flushInterval: int

    // Both maps cover the same processes, and no buffer is empty.
    ghost predicate Valid()
      reads this
    {
      && buffers.Keys == comms.Keys
      && forall p :: p in buffers ==> buffers[p] != []
    }

    constructor (t: int)
      ensures Valid() && buffers == map[] && comms == map[] && flushInterval == t
    {
      buffers, comms, flushInterval := map[], map[], t;
    }

    method Update(ev: Incoming, now: int)
      requires Valid()
      modifies this
      ensures Valid()
      ensures ev.Foreign? ==> buffers == old(buffers) && comms == old(comms)
      ensures ev.Gpu? ==>
                var pid := ev.event.pid;
                && buffers == old(buffers)[pid := Buffered(old(buffers), pid) + [TokenOf(ev.event, now)]]
                && comms == old(comms)[pid := CString(ev.event.comm)]
    {
      var token := EventToToken(ev, now);
      if token == None {
        return;
      }
      var pid, comm := ev.event.pid, CString(ev.event.comm);
      buffers := buffers[pid := Buffered(buffers, pid) + [token.value]];
      comms := comms[pid := comm];
    }

    // Visits the buffers in any order; order records the one taken.
    method Flush() returns (batch: Option<GpuBatch>, ghost order: seq<U32>)
      requires Valid()
      modifies this
      ensures Valid() && buffers == map[] && comms == map[]
      ensures Listing(order, old(buffers).Keys)
      ensures batch == None <==> old(buffers) == map[]
      ensures batch.Some? ==> batch.value == GpuBatch("gpu_time_series", Flushed(order, old(buffers), old(comms)))
    {
      hide Flushed, Buffered;
      var events: seq<GpuEvent> := [];
      order := [];
      FlushedNothing(buffers, comms);
      var todo := buffers.Keys;
      while todo != {}
        invariant todo <= buffers.Keys
        invariant buffers == old(buffers) && comms == old(comms)
        invariant Listing(order, buffers.Keys - todo)
        invariant events == Flushed(order, buffers, comms)
        decreases todo
      {
        var pid :| pid in todo;
        todo := todo - {pid};
        var tokens := buffers[pid];
        BufferedAt(buffers, pid);
        ghost var before := events;
        for i := 0 to |tokens|
          invariant events == before + TokenEvents(pid, CommOf(comms, pid), tokens[..i])
        {
          events := events + [GpuEvent(pid, CommOf(comms, pid), "timeserie", TokenPayload(tokens[i]))];
          assert TokenEvents(pid, CommOf(comms, pid), tokens[..i + 1])
              == TokenEvents(pid, CommOf(comms, pid), tokens[..i]) + [events[|events| - 1]];
        }
        assert tokens[..|tokens|] == tokens;
        FlushedAppend(order, pid, buffers, comms);
        order := order + [pid];
      }
      forall p | p in order ensures Buffered(buffers, p) != [] { BufferedAt(buffers, p); }
      FlushedNonEmpty(order, buffers, comms);
      assert order == [] <==> buffers == map[] by {
        if order == [] { assert buffers.Keys == {}; } else { assert order[0] in order; }
      }
      buffers, comms := map[], map[];
      if |events| == 0 {
        return None, order;
      }
      batch := Some(GpuBatch("gpu_time_series", events));
    }
  }
}
