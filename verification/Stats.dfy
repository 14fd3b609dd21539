// What the numbers in a window mean: plain folds over the list of events the
// window has seen, independent of how the aggregator computes them.
module Stats {
  import opened Arith
  import opened Records
  import Launch

  // An event together with the time a collector received it.
  datatype Stamped = Stamped(event: Event, at: int)

  datatype Kind = Launches | Allocs | Copies | Syncs

  function KindOf(e: Event): Kind {
    match e
    case KernelLaunch(_, _, _, _, _, _, _, _, _, _, _) => Launches
    case MemAlloc(_, _, _) => Allocs
    case Memcpy(_, _, _, _) => Copies
    case StreamSync(_, _, _, _, _) => Syncs
  }

  // The series of numbers a window draws from its events.
  datatype Series = Threads | Blocks | AllocBytes | CopyBytes | HtodBytes | DtohBytes | SyncTime

  // The main series of a kind: one number for each of its events.
  function MainSeries(k: Kind): Series {
    match k
    case Launches => Threads
    case Allocs => AllocBytes
    case Copies => CopyBytes
    case Syncs => SyncTime
  }

  predicate Contributes(e: Event, s: Series) {
    match s
    case Threads => e.KernelLaunch?
    case Blocks => e.KernelLaunch?
    case AllocBytes => e.MemAlloc?
    case CopyBytes => e.Memcpy?
    case HtodBytes => e.Memcpy? && e.kind == DIR_HTOD
    case DtohBytes => e.Memcpy? && e.kind != DIR_HTOD
    case SyncTime => e.StreamSync?
  }

  function Number(e: Event, s: Series): U64
    requires Contributes(e, s)
  {
    match e
    case KernelLaunch(_, _, _, _, _, _, _, _, _, _, threads) => if s == Blocks then Launch.Blocks(e) else threads
    case MemAlloc(_, _, n) => n
    case Memcpy(_, _, n, _) => n
    case StreamSync(_, _, _, _, delta) => delta
  }

  function Numbers(es: seq<Stamped>, s: Series): seq<nat> {
    if es == [] then []
    else
      var e := es[|es| - 1].event;
      Numbers(es[..|es| - 1], s) + if Contributes(e, s) then [Number(e, s)] else []
  }

  // The numbers one event adds to a series: one or none.
  function Adds(e: Event, s: Series): seq<nat> {
    if Contributes(e, s) then [Number(e, s)] else []
  }

  // What they are: a launch adds its threads and its blocks, counted in 32 bits;
  // an allocation its bytes; a copy its bytes, to the device if its kind byte is
  // zero and back otherwise; a synchronisation its duration.
  lemma OneEvent(e: Event)
    ensures match e
            case KernelLaunch(_, _, x, y, z, _, _, _, _, _, threads) =>
              && KindOf(e) == Launches && Adds(e, Threads) == [threads] && Adds(e, Blocks) == [Wrap32(x * y * z)]
              && forall s :: s in {AllocBytes, CopyBytes, HtodBytes, DtohBytes, SyncTime} ==> Adds(e, s) == []
            case MemAlloc(_, _, n) =>
              && KindOf(e) == Allocs && Adds(e, AllocBytes) == [n]
              && forall s :: s in {Threads, Blocks, CopyBytes, HtodBytes, DtohBytes, SyncTime} ==> Adds(e, s) == []
            case Memcpy(_, _, n, kind) =>
              && KindOf(e) == Copies && Adds(e, CopyBytes) == [n]
              && Adds(e, HtodBytes) == (if kind == 0 then [n] else [])
              && Adds(e, DtohBytes) == (if kind == 0 then [] else [n])
              && forall s :: s in {Threads, Blocks, AllocBytes, SyncTime} ==> Adds(e, s) == []
            case StreamSync(_, _, _, _, delta) =>
              && KindOf(e) == Syncs && Adds(e, SyncTime) == [delta]
              && forall s :: s in {Threads, Blocks, AllocBytes, CopyBytes, HtodBytes, DtohBytes} ==> Adds(e, s) == []
    ensures MainSeries(Launches) == Threads && MainSeries(Allocs) == AllocBytes
    ensures MainSeries(Copies) == CopyBytes && MainSeries(Syncs) == SyncTime
  {
    if e.KernelLaunch? {
      Wrap32Mul(e.gridx * e.gridy, e.gridz);
    }
  }

  // A list's numbers are those its events add, in order.
  lemma NumbersAdd(es: seq<Stamped>, x: Stamped, s: Series)
    ensures Numbers([], s) == [] && Numbers(es + [x], s) == Numbers(es, s) + Adds(x.event, s)
  {
    NumbersAppend(es, x, s);
  }

  // An empty list has no number, sums to zero, and has mean and maximum zero.
  lemma OfNothing(s: Series)
    ensures Numbers([], s) == [] && Sum([]) == 0 && MaxOf([]) == 0 && Mean([]) == 0.0
  {
  }

  function Sum(xs: seq<nat>): nat {
    if xs == [] then 0 else Sum(xs[..|xs| - 1]) + xs[|xs| - 1]
  }

  function MaxOf(xs: seq<nat>): nat {
    if xs == [] then 0
    else
      var m := MaxOf(xs[..|xs| - 1]);
      if m > xs[|xs| - 1] then m else xs[|xs| - 1]
  }

  function Mean(xs: seq<nat>): real {
    if xs == [] then 0.0 else Sum(xs) as real / |xs| as real
  }

  lemma NumbersAppend(es: seq<Stamped>, x: Stamped, s: Series)
    ensures Numbers(es + [x], s)
         == Numbers(es, s) + if Contributes(x.event, s) then [Number(x.event, s)] else []
    ensures !Contributes(x.event, s) ==> Numbers(es + [x], s) == Numbers(es, s)
  {
    assert (es + [x])[..|es|] == es;
    assert Numbers(es, s) + [] == Numbers(es, s);
  }

  lemma {:induction false} NumbersConcat(a: seq<Stamped>, b: seq<Stamped>, s: Series)
    ensures Numbers(a + b, s) == Numbers(a, s) + Numbers(b, s)
  {
    if b == [] {
      assert a + b == a;
    } else {
      var b', x := b[..|b| - 1], b[|b| - 1];
      NumbersConcat(a, b', s);
      assert a + b == (a + b') + [x];
      assert b == b' + [x];
      NumbersAppend(a + b', x, s);
      NumbersAppend(b', x, s);
    }
  }

  lemma SumAppend(xs: seq<nat>, x: nat)
    ensures Sum(xs + [x]) == Sum(xs) + x
  {
    assert (xs + [x])[..|xs|] == xs;
  }

  lemma {:induction false} SumConcat(xs: seq<nat>, ys: seq<nat>)
    ensures Sum(xs + ys) == Sum(xs) + Sum(ys)
  {
    if ys == [] {
      assert xs + ys == xs;
    } else {
      var ys' := ys[..|ys| - 1];
      SumConcat(xs, ys');
      assert xs + ys == (xs + ys') + [ys[|ys| - 1]];
      SumAppend(xs + ys', ys[|ys| - 1]);
    }
  }

  lemma MaxAppend(xs: seq<nat>, x: nat)
    ensures MaxOf(xs + [x]) == if MaxOf(xs) > x then MaxOf(xs) else x
  {
    assert (xs + [x])[..|xs|] == xs;
  }

  // MaxOf is the maximum.
  lemma {:induction false} MaxOfIsMaximum(xs: seq<nat>)
    ensures forall i :: 0 <= i < |xs| ==> xs[i] <= MaxOf(xs)
    ensures xs != [] ==> MaxOf(xs) in xs
  {
    if xs != [] {
      var ys := xs[..|xs| - 1];
      MaxOfIsMaximum(ys);
      assert forall i :: 0 <= i < |ys| ==> xs[i] == ys[i];
      assert ys == [] ==> xs == [xs[|xs| - 1]];
    }
  }

  lemma {:induction false} SumAtMostMax(xs: seq<nat>)
    ensures Sum(xs) <= |xs| * MaxOf(xs)
  {
    if xs != [] {
      var ys, m := xs[..|xs| - 1], MaxOf(xs);
      SumAtMostMax(ys);
      Scale(|ys|, MaxOf(ys), m);
      assert |xs| * m == |ys| * m + m;
    }
  }

  lemma Scale(n: nat, a: nat, b: nat)
    requires a <= b
    ensures n * a <= n * b
  {
  }

  lemma Quotient(s: nat, n: nat, m: nat)
    requires n > 0 && s <= n * m
    ensures s as real / n as real <= m as real
  {
    var q := s as real / n as real;
    assert q * n as real == s as real;
    assert (n * m) as real == n as real * m as real;
  }

  // A mean never exceeds its maximum.
  lemma MeanAtMostMax(xs: seq<nat>)
    ensures Mean(xs) <= MaxOf(xs) as real
  {
    if xs != [] {
      hide Sum, MaxOf;
      SumAtMostMax(xs);
      Quotient(Sum(xs), |xs|, MaxOf(xs));
    }
  }

  // A mean times its count is the sum it came from.
  lemma MeanTimesCount(xs: seq<nat>)
    ensures Mean(xs) * |xs| as real == Sum(xs) as real
  {
  }

  lemma SumNumbersAppend(es: seq<Stamped>, x: Stamped, s: Series)
    ensures Sum(Numbers(es + [x], s))
         == Sum(Numbers(es, s)) + if Contributes(x.event, s) then Number(x.event, s) else 0
  {
    NumbersAppend(es, x, s);
    if Contributes(x.event, s) {
      SumAppend(Numbers(es, s), Number(x.event, s));
    }
  }

  // Every copy goes one way or the other.
  lemma {:induction false} CopiesSplitByDirection(es: seq<Stamped>)
    ensures Sum(Numbers(es, HtodBytes)) + Sum(Numbers(es, DtohBytes)) == Sum(Numbers(es, CopyBytes))
  {
    if es != [] {
      var es', x := es[..|es| - 1], es[|es| - 1];
      CopiesSplitByDirection(es');
      assert es == es' + [x];
      hide Numbers, Sum;
      SumNumbersAppend(es', x, HtodBytes);
      SumNumbersAppend(es', x, DtohBytes);
      SumNumbersAppend(es', x, CopyBytes);
    }
  }

  // The four kinds partition the events.
  lemma {:induction false} KindsPartition(es: seq<Stamped>)
    ensures |Numbers(es, Threads)| + |Numbers(es, AllocBytes)| + |Numbers(es, CopyBytes)|
          + |Numbers(es, SyncTime)| == |es|
  {
    if es != [] {
      KindsPartition(es[..|es| - 1]);
    }
  }

  // One step of a running mean, n being the count after the step. A count that
  // has wrapped to zero makes the program divide by zero; the zero here stands
  // for the infinity or NaN it gets.
  function RunningMean(avg: real, n: U64, x: nat): real {
    if n == 0 then 0.0 else (avg * Sub64(n, 1) as real + x as real) / n as real
  }

  ghost predicate IsMean(avg: real, xs: seq<nat>) {
    |xs| < TWO_64 ==> avg == Mean(xs)
  }

  lemma RunningMeanStep(avg: real, xs: seq<nat>, x: nat)
    requires IsMean(avg, xs)
    ensures IsMean(RunningMean(avg, Wrap64(|xs| + 1), x), xs + [x])
  {
    var n := |xs| + 1;
    if n < TWO_64 {
      assert Wrap64(n) == n && Sub64(n, 1) == |xs|;
      assert avg * |xs| as real == Sum(xs) as real by { MeanTimesCount(xs); }
      SumAppend(xs, x);
    }
  }
}
