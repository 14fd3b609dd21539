// The loader's read loop: decode each ring-buffer record and hand it to both
// collectors in turn.
module Loader {
  import opened Arith
  import opened Records
  import opened Wire
  import opened Windows
  import opened TimeSeries
  import opened Aggregator
  import T = Telemetry

  // One raw sample with the times the two collectors read.
  datatype Sample = Sample(raw: seq<U8>, aggregatorTime: int, seriesTime: int)

  // What the collectors hold, as values.
  datatype Collected = Collected(lives: Lives, buffers: Buffers, comms: Comms)

  function Collect(c: Collected, s: Sample, duration: int): Collected {
    match Dispatch(s.raw)
    case Decoded(e) =>
      Collected(Received(c.lives, e, s.aggregatorTime, duration),
                c.buffers[e.pid := Buffered(c.buffers, e.pid) + [TokenOf(e, s.seriesTime)]],
                c.comms[e.pid := CString(e.comm)])
    case _ => c
  }

  function CollectAll(c: Collected, samples: seq<Sample>, duration: int): Collected {
    if samples == [] then c
    else Collect(CollectAll(c, samples[..|samples| - 1], duration), samples[|samples| - 1], duration)
  }

  // A sample that is empty, short or of an unknown kind changes nothing, so
  // only the well-formed ones matter.
  function WellFormed(samples: seq<Sample>): seq<Sample> {
    if samples == [] then []
    else
      var s := samples[|samples| - 1];
      WellFormed(samples[..|samples| - 1]) + if Dispatch(s.raw).Decoded? then [s] else []
  }

  lemma {:induction false} OnlyWellFormedMatter(c: Collected, samples: seq<Sample>, duration: int)
    ensures CollectAll(c, samples, duration) == CollectAll(c, WellFormed(samples), duration)
    ensures forall s :: s in WellFormed(samples) ==> s in samples && Dispatch(s.raw).Decoded?
  {
    if samples != [] {
      var init, s := samples[..|samples| - 1], samples[|samples| - 1];
      OnlyWellFormedMatter(c, init, duration);
      hide Dispatch, Received;
      if Dispatch(s.raw).Decoded? {
        assert WellFormed(samples)[..|WellFormed(init)|] == WellFormed(init);
      } else {
        assert WellFormed(samples) == WellFormed(init);
      }
    }
  }

  // Samples are taken one after the other, the first first.
  lemma {:induction false} CollectInOrder(c: Collected, a: seq<Sample>, b: seq<Sample>, s: Sample, duration: int)
    ensures CollectAll(c, [s], duration) == Collect(c, s, duration)
    ensures CollectAll(c, a + b, duration) == CollectAll(CollectAll(c, a, duration), b, duration)
  {
    assert [s][..0] == [];
    hide Collect;
    if b == [] {
      assert a + b == a;
    } else {
      CollectInOrder(c, a, b[..|b| - 1], s, duration);
      assert (a + b)[..|a + b| - 1] == a + b[..|b| - 1];
    }
  }

  // A sample changes what its process has: its window, its buffer, its name.
  lemma OneSample(c: Collected, s: Sample, duration: int)
    ensures var c' := Collect(c, s, duration);
            match Dispatch(s.raw)
            case Decoded(e) =>
              && c'.lives == Received(c.lives, e, s.aggregatorTime, duration)
              && c'.buffers == c.buffers[e.pid := Buffered(c.buffers, e.pid) + [TokenOf(e, s.seriesTime)]]
              && c'.comms == c.comms[e.pid := CString(e.comm)]
            case _ => c' == c
  {
  }

  function HeldBy(s: T.State): Collected {
    Collected(s.lives, s.buffers, s.comms)
  }

  // A turn of the read loop in the state machine: a read and, if it decoded,
  // the two deliveries with time passing in between.
  ghost function Turn(s: T.State, dt: nat, duration: int): T.State
    requires T.Enabled(s, T.Read)
  {
    var read := T.Next(s, T.Read, duration);
    if read.hand.Decoded? then
      var half := T.Next(read, T.SendToAggregator, duration);
      T.Next(T.Next(half, T.Wait(dt), duration), T.SendToSeries, duration)
    else read
  }

  lemma TurnIsThreeSteps(s: T.State, raw: seq<U8>, dt: nat, duration: int)
    requires T.Enabled(s, T.Read) && s.ring[0] == T.Submitted(raw)
    ensures Turn(s, dt, duration).hand == T.Empty && Turn(s, dt, duration).ring == s.ring[1..]
    ensures HeldBy(Turn(s, dt, duration)) == Collect(HeldBy(s), Sample(raw, s.now, s.now + dt), duration)
  {
    hide Dispatch, Received;
  }

  class GpuprintLoader {
    const aggregator: GPUAggregator
    const series: TimeSeriesCollector

    ghost predicate Valid()
      reads aggregator`windows, aggregator`lives, aggregator.windows.Values, series
    {
      aggregator.Valid() && series.Valid()
    }

    ghost function Held(): Collected
      reads aggregator, series
    {
      Collected(aggregator.lives, series.buffers, series.comms)
    }

    constructor (aggregator: GPUAggregator, series: TimeSeriesCollector)
      requires aggregator.Valid() && series.Valid()
      ensures Valid() && this.aggregator == aggregator && this.series == series
    {
      this.aggregator, this.series := aggregator, series;
    }

    method SendToCollectors(e: Event, aggregatorTime: int, seriesTime: int)
      requires Valid()
      modifies aggregator, aggregator.windows.Values, series
      ensures Valid()
      ensures fresh(aggregator.windows.Values - old(aggregator.windows.Values))
      ensures aggregator.lives == Received(old(aggregator.lives), e, aggregatorTime, aggregator.windowDuration)
      ensures var before := old(series.buffers);
              series.buffers == before[e.pid := Buffered(before, e.pid) + [TokenOf(e, seriesTime)]]
      ensures series.comms == old(series.comms)[e.pid := CString(e.comm)]
    {
      hide aggregator.Valid, GPUFingerprint.Represents, Received;
      aggregator.Update(Gpu(e), aggregatorTime);
      series.Update(Gpu(e), seriesTime);
    }

    // One turn of the read loop.
    method HandleSample(s: Sample)
      requires Valid()
      modifies aggregator, aggregator.windows.Values, series
      ensures Valid() && Held() == Collect(old(Held()), s, aggregator.windowDuration)
      ensures fresh(aggregator.windows.Values - old(aggregator.windows.Values))
    {
      hide Valid, Dispatch, Received, TokenOf, CString, Buffered;
      match Dispatch(s.raw)
      case Decoded(e) => SendToCollectors(e, s.aggregatorTime, s.seriesTime);
      case EmptyRecord =>
      case ParseError =>
      case UnknownFlag =>
    }

    // The read loop, over any finite stretch of its run.
    method ReadAll(samples: seq<Sample>)
      requires Valid()
      modifies aggregator, aggregator.windows.Values, series
      ensures Valid() && Held() == CollectAll(old(Held()), samples, aggregator.windowDuration)
    {
      hide Valid, Collect;
      for i := 0 to |samples|
        invariant Valid() && Held() == CollectAll(old(Held()), samples[..i], aggregator.windowDuration)
        invariant fresh(aggregator.windows.Values - old(aggregator.windows.Values))
      {
        HandleSample(samples[i]);
        assert samples[..i + 1][..i] == samples[..i];
      }
      assert samples[..|samples|] == samples;
    }
  }
}
