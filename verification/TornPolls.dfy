// A poll copies an entry's cells one CPU after another while handlers go on
// counting: what alerts still mean when the cells were read at different times.
module TornPolls {
  import opened Wrappers
  import opened Arith
  import opened Watchdog
  import opened PidHistory

  // cells were read from the entry one by one between times first and last of its
  // history.
  ghost predicate TornRead(h: seq<PidEvent>, first: nat, last: nat, cells: seq<Cell>, cpus: nat) {
    && first <= last <= |h| && |cells| == cpus
    && forall i :: 0 <= i < cpus ==> ReadAt(h, first, last, cells[i], i, cpus)
  }

  ghost predicate ReadAt(h: seq<PidEvent>, first: nat, last: nat, cell: Cell, i: nat, cpus: nat)
    requires first <= last <= |h|
  {
    exists t :: first <= t <= last && HasCell(After(h[..t], cpus), i, cell)
  }

  ghost predicate HasCell(s: PidState, i: nat, cell: Cell) {
    s.entry.Some? && i < |s.entry.value| && s.entry.value[i] == cell
  }

  // The entry is neither created nor deleted between two times.
  ghost predicate SameEntry(h: seq<PidEvent>, first: nat, last: nat)
    requires last <= |h|
  {
    forall j :: first <= j < last ==> !h[j].Created? && !h[j].Deleted?
  }

  // ---- without wrap-around, cells are plain counts ---------------------------------

  lemma {:induction false} CellAtMostSum(cells: seq<Cell>, i: nat, kind: HitKind)
    requires i < |cells|
    ensures cells[i].Hits(kind) <= SumOf(cells, kind)
  {
    if i < |cells| - 1 {
      CellAtMostSum(cells[..|cells| - 1], i, kind);
    }
  }

  lemma BumpedSumExactly(cells: seq<Cell>, cpu: nat, hit: HitKind, kind: HitKind)
    requires cpu < |cells| && SumOf(cells, kind) + 1 < TWO_64
    ensures SumOf(cells[cpu := cells[cpu].Bumped(hit)], kind) == SumOf(cells, kind) + if hit == kind then 1 else 0
    ensures cells[cpu].Bumped(hit).Hits(kind) >= cells[cpu].Hits(kind)
  {
    hide SumOf;
    CellAtMostSum(cells, cpu, kind);
    SumOfUpdate(cells, cpu, cells[cpu].Bumped(hit), kind);
  }

  // Below 2^64 hits the cells sum to the hits since creation exactly.
  lemma {:induction false} CountersCountExactly(h: seq<PidEvent>, kind: HitKind, cpus: nat)
    requires Legal(h, cpus) && After(h, cpus).entry.Some? && SinceCreated(h, kind) < TWO_64
    ensures SumOf(After(h, cpus).entry.value, kind) == SinceCreated(h, kind)
  {
    var init, e := h[..|h| - 1], h[|h| - 1];
    hide SumOf, Visit, Totals, FreshCells;
    match e
    case Created(cpu, stamp) => FreshCellsAreEmpty(cpus, cpu, stamp, kind);
    case Hit(cpu, hit, _) =>
      CountersCountExactly(init, kind, cpus);
      if hit == kind {
        BumpedSumExactly(After(init, cpus).entry.value, cpu, hit, kind);
      } else {
        SumOfUpdate(After(init, cpus).entry.value, cpu, After(init, cpus).entry.value[cpu].Bumped(hit), kind);
      }
    case Deleted =>
    case _ => CountersCountExactly(init, kind, cpus);
  }

  // ---- cells only grow ---------------------------------------------------------------

  ghost predicate CellsGrow(a: PidState, b: PidState, kind: HitKind) {
    && a.entry.Some? && b.entry.Some? && |a.entry.value| == |b.entry.value|
    && forall i :: 0 <= i < |a.entry.value| ==> a.entry.value[i].Hits(kind) <= b.entry.value[i].Hits(kind)
  }

  // The hits of a kind between two times.
  function HitsIn(h: seq<PidEvent>, first: nat, last: nat, kind: HitKind): nat
    requires first <= last <= |h|
    decreases last
  {
    if first == last then 0 else HitsIn(h, first, last - 1, kind) + if IsHit(h[last - 1], kind) then 1 else 0
  }

  lemma {:induction false} HitsBetween(h: seq<PidEvent>, first: nat, last: nat, kind: HitKind)
    requires first <= last <= |h| && SameEntry(h, first, last)
    ensures SinceCreated(h[..last], kind) == SinceCreated(h[..first], kind) + HitsIn(h, first, last, kind)
    ensures CreatedBy(h[..last]) == CreatedBy(h[..first])
    decreases last
  {
    if first < last {
      HitsBetween(h, first, last - 1, kind);
      assert h[..last] == h[..last - 1] + [h[last - 1]];
      SinceCreatedAppend(h[..last - 1], h[last - 1], kind);
    }
  }

  lemma StepGrows(h: seq<PidEvent>, e: PidEvent, kind: HitKind, cpus: nat)
    requires Legal(h + [e], cpus) && After(h + [e], cpus).entry.Some? && !e.Created? && !e.Deleted?
    requires SinceCreated(h + [e], kind) < TWO_64
    ensures Legal(h, cpus) && CellsGrow(After(h, cpus), After(h + [e], cpus), kind)
  {
    hide SumOf, SinceCreated, Visit, Totals;
    assert (h + [e])[..|h|] == h;
    SinceCreatedAppend(h, e, kind);
    if IsHit(e, kind) {
      CountersCountExactly(h, kind, cpus);
      BumpedSumExactly(After(h, cpus).entry.value, e.cpu, kind, kind);
    }
  }

  lemma {:induction false} CellsOnlyGrow(h: seq<PidEvent>, first: nat, last: nat, kind: HitKind, cpus: nat)
    requires first <= last <= |h| && Legal(h[..last], cpus) && After(h[..last], cpus).entry.Some?
    requires SameEntry(h, first, last) && SinceCreated(h[..last], kind) < TWO_64
    ensures CellsGrow(After(h[..first], cpus), After(h[..last], cpus), kind)
    decreases last
  {
    hide After, Legal, SinceCreated;
    if first < last {
      assert h[..last] == h[..last - 1] + [h[last - 1]];
      StepGrows(h[..last - 1], h[last - 1], kind, cpus);
      SinceCreatedAppend(h[..last - 1], h[last - 1], kind);
      CellsOnlyGrow(h, first, last - 1, kind, cpus);
    }
  }

  lemma {:induction false} SumsGrow(a: seq<Cell>, b: seq<Cell>, kind: HitKind)
    requires |a| == |b| && forall i :: 0 <= i < |a| ==> a[i].Hits(kind) <= b[i].Hits(kind)
    ensures SumOf(a, kind) <= SumOf(b, kind)
  {
    if a != [] {
      SumsGrow(a[..|a| - 1], b[..|b| - 1], kind);
    }
  }

  lemma {:induction false} SameStampsSameFirstSeen(a: seq<Cell>, b: seq<Cell>)
    requires |a| == |b| && forall i :: 0 <= i < |a| ==> a[i].firstSeen == b[i].firstSeen
    ensures FirstSeen(a) == FirstSeen(b)
  {
    if a != [] {
      SameStampsSameFirstSeen(a[..|a| - 1], b[..|b| - 1]);
    }
  }

  // ---- what a torn read sees -----------------------------------------------------------

  // The read of an entry that lives from the first cell read to the last.
  ghost predicate OneRead(h: seq<PidEvent>, first: nat, last: nat, cells: seq<Cell>, cpus: nat) {
    && TornRead(h, first, last, cells, cpus) && SameEntry(h, first, last)
    && Legal(h, cpus) && After(h[..last], cpus).entry.Some? && FewHits(h[..last])
  }

  lemma TornCell(h: seq<PidEvent>, first: nat, last: nat, cells: seq<Cell>, i: nat, kind: HitKind, cpus: nat)
    requires OneRead(h, first, last, cells, cpus) && i < cpus
    ensures var a, b := After(h[..first], cpus).entry, After(h[..last], cpus).entry;
            && a.Some? && b.Some? && |a.value| == |b.value| == cpus
            && a.value[i].Hits(kind) <= cells[i].Hits(kind) <= b.value[i].Hits(kind)
            && cells[i].firstSeen == b.value[i].firstSeen
  {
    hide After, Legal, SinceCreated, CreatedBy, FirstSeen, SumOf;
    assert ReadAt(h, first, last, cells[i], i, cpus);
    var t :| first <= t <= last && HasCell(After(h[..t], cpus), i, cells[i]);
    PrefixIsLegal(h, first, cpus);
    PrefixIsLegal(h, t, cpus);
    PrefixIsLegal(h, last, cpus);
    HitsBetween(h, t, last, kind);
    CellsOnlyGrow(h, t, last, kind, cpus);
    CellsOnlyGrow(h, first, t, kind, cpus);
    HitsBetween(h, first, t, kind);
    CountersCount(h[..t], cpus);
    CountersCount(h[..last], cpus);
  }

  // Its totals lie between those at its start and at its end, and its
  // first-seen time is the creator's stamp.
  lemma TornTotals(h: seq<PidEvent>, first: nat, last: nat, cells: seq<Cell>, kind: HitKind, cpus: nat)
    requires OneRead(h, first, last, cells, cpus)
    ensures SinceCreated(h[..first], kind) <= SumOf(cells, kind) <= SinceCreated(h[..last], kind)
    ensures CreatedBy(h[..last]).Some? && FirstSeen(cells) == CreatedBy(h[..last]).value.stamp
  {
    hide After, Legal, SinceCreated, CreatedBy, FirstSeen, SumOf, ReadAt, SameEntry;
    PrefixIsLegal(h, first, cpus);
    PrefixIsLegal(h, last, cpus);
    var b := After(h[..last], cpus).entry.value;
    CountersCount(h[..last], cpus);
    CountersCountExactly(h[..last], kind, cpus);
    StartOfRead(h, first, last, cells, kind, cpus);
    var a := After(h[..first], cpus).entry.value;
    forall i | 0 <= i < cpus
      ensures a[i].Hits(kind) <= cells[i].Hits(kind) <= b[i].Hits(kind) && cells[i].firstSeen == b[i].firstSeen
    {
      TornCell(h, first, last, cells, i, kind, cpus);
    }
    SumsGrow(a, cells, kind);
    SumsGrow(cells, b, kind);
    SameStampsSameFirstSeen(cells, b);
  }

  lemma StartOfRead(h: seq<PidEvent>, first: nat, last: nat, cells: seq<Cell>, kind: HitKind, cpus: nat)
    requires OneRead(h, first, last, cells, cpus)
    ensures var a := After(h[..first], cpus).entry;
            a.Some? && |a.value| == |cells| == cpus && SumOf(a.value, kind) == SinceCreated(h[..first], kind)
  {
    hide After, Legal, SinceCreated, CreatedBy, FirstSeen, SumOf;
    PrefixIsLegal(h, first, cpus);
    PrefixIsLegal(h, last, cpus);
    CellsOnlyGrow(h, first, last, kind, cpus);
    HitsBetween(h, first, last, kind);
    CountersCount(h[..first], cpus);
    CountersCountExactly(h[..first], kind, cpus);
  }

  lemma {:induction false} HitsAreFew(h: seq<PidEvent>)
    ensures SinceCreated(h, IoctlHit) <= |h| && SinceCreated(h, UprobeHit) <= |h|
  {
    if h != [] {
      HitsAreFew(h[..|h| - 1]);
    }
  }

  // ---- alerts --------------------------------------------------------------------------

  // Two reads of one entry, the first stored and the second compared with it:
  // an alert means at least 50 ioctl hits from the start of the first to the
  // end of the second, and no uprobe hit between the two. Conversely a
  // qualifying second read alerts if at least 50 ioctl hits came between the
  // two and no uprobe hit from the start of the first to the end of the second.
  lemma TornAlerts(h: seq<PidEvent>, first: nat, last: nat, cells: seq<Cell>,
                   first': nat, last': nat, cells': seq<Cell>, now: U64, cpus: nat)
    requires OneRead(h, first, last, cells, cpus) && OneRead(h, first', last', cells', cpus)
    requires last <= first' && SameEntry(h, last, first')
    ensures Visit(Some(Totals(cells)), Totals(cells'), now).alert ==>
              HitsIn(h, first, last', IoctlHit) >= 50 && HitsIn(h, last, first', UprobeHit) == 0
    ensures && Qualifies(Totals(cells'), now)
            && HitsIn(h, last, first', IoctlHit) >= 50
            && HitsIn(h, first, last', UprobeHit) == 0
            ==> Visit(Some(Totals(cells)), Totals(cells'), now).alert
  {
    hide OneRead, SinceCreated, SumOf, FirstSeen, HitsIn;
    TornDelta(h, first, last, cells, first', last', cells', IoctlHit, cpus);
    TornDelta(h, first, last, cells, first', last', cells', UprobeHit, cpus);
    SmallWrap(SumOf(cells', IoctlHit) - SumOf(cells, IoctlHit));
    SmallWrap(SumOf(cells', UprobeHit) - SumOf(cells, UprobeHit));
  }

  // The difference of two reads lies between the hits between them and the hits
  // from the start of the first to the end of the second.
  lemma TornDelta(h: seq<PidEvent>, first: nat, last: nat, cells: seq<Cell>,
                  first': nat, last': nat, cells': seq<Cell>, kind: HitKind, cpus: nat)
    requires OneRead(h, first, last, cells, cpus) && OneRead(h, first', last', cells', cpus)
    requires last <= first' && SameEntry(h, last, first')
    ensures HitsIn(h, last, first', kind) <= SumOf(cells', kind) - SumOf(cells, kind) <= HitsIn(h, first, last', kind)
    ensures SumOf(cells, kind) <= SumOf(cells', kind) < TWO_64
    ensures Wrap64(SumOf(cells, kind)) == SumOf(cells, kind) && Wrap64(SumOf(cells', kind)) == SumOf(cells', kind)
  {
    hide After, Legal, SinceCreated, CreatedBy, SumOf, FirstSeen, HitsIn, Wrap64;
    TornTotals(h, first, last, cells, kind, cpus);
    TornTotals(h, first', last', cells', kind, cpus);
    assert SameEntry(h, first, last');
    HitsBetween(h, last, first', kind);
    HitsBetween(h, first, last', kind);
    SmallWrap(SumOf(cells, kind));
    SmallWrap(SumOf(cells', kind));
  }

  // ---- reads that span deletions --------------------------------------------------------

  predicate IsHitOn(e: PidEvent, cpu: nat, kind: HitKind) {
    IsHit(e, kind) && e.cpu == cpu
  }

  // The hits on one CPU between two times.
  function HitsOn(h: seq<PidEvent>, first: nat, last: nat, cpu: nat, kind: HitKind): nat
    requires first <= last <= |h|
    decreases last
  {
    if first == last then 0
    else HitsOn(h, first, last - 1, cpu, kind) + if IsHitOn(h[last - 1], cpu, kind) then 1 else 0
  }

  // The hits on the CPUs below n.
  function HitsBelow(h: seq<PidEvent>, first: nat, last: nat, n: nat, kind: HitKind): nat
    requires first <= last <= |h|
  {
    if n == 0 then 0 else HitsBelow(h, first, last, n - 1, kind) + HitsOn(h, first, last, n - 1, kind)
  }

  lemma {:induction false} HitsBelowStep(h: seq<PidEvent>, first: nat, last: nat, n: nat, kind: HitKind)
    requires first < last <= |h|
    ensures HitsBelow(h, first, last, n, kind)
         == HitsBelow(h, first, last - 1, n, kind) + if IsHit(h[last - 1], kind) && h[last - 1].cpu < n then 1 else 0
  {
    if n > 0 {
      HitsBelowStep(h, first, last, n - 1, kind);
    }
  }

  lemma {:induction false} NoHitsYet(h: seq<PidEvent>, first: nat, n: nat, kind: HitKind)
    requires first <= |h|
    ensures HitsBelow(h, first, first, n, kind) == 0
  {
    if n > 0 {
      NoHitsYet(h, first, n - 1, kind);
    }
  }

  lemma {:induction false} HitsBelowAtMost(h: seq<PidEvent>, first: nat, last: nat, n: nat, kind: HitKind)
    requires first <= last <= |h|
    ensures HitsBelow(h, first, last, n, kind) <= HitsIn(h, first, last, kind) <= last - first
    decreases last
  {
    if first == last {
      NoHitsYet(h, first, n, kind);
    } else {
      HitsBelowAtMost(h, first, last - 1, n, kind);
      HitsBelowStep(h, first, last, n, kind);
    }
  }

  lemma {:induction false} HitsOnMore(h: seq<PidEvent>, first: nat, middle: nat, last: nat, cpu: nat, kind: HitKind)
    requires first <= middle <= last <= |h|
    ensures HitsOn(h, first, middle, cpu, kind) <= HitsOn(h, first, last, cpu, kind) <= last - first
    decreases last
  {
    if middle < last {
      HitsOnMore(h, first, middle, last - 1, cpu, kind);
    } else if first < middle {
      HitsOnMore(h, first, middle - 1, last - 1, cpu, kind);
    }
  }

  // The process's count on a CPU, zero when there is no entry.
  ghost function CellOf(s: PidState, cpu: nat, kind: HitKind): nat {
    if s.entry.Some? && cpu < |s.entry.value| then s.entry.value[cpu].Hits(kind) else 0
  }

  ghost function CellHits(h: seq<PidEvent>, cpu: nat, kind: HitKind, cpus: nat): nat {
    CellOf(After(h, cpus), cpu, kind)
  }

  lemma StateStep(s: PidState, e: PidEvent, cpu: nat, kind: HitKind, cpus: nat)
    requires Applies(s, e, cpus) && (s.entry.Some? ==> |s.entry.value| == cpus) && CellOf(s, cpu, kind) + 1 < TWO_64
    ensures CellOf(Next(s, e, cpus), cpu, kind)
         == if e.Created? || e.Deleted? then 0
            else CellOf(s, cpu, kind) + if IsHitOn(e, cpu, kind) && cpu < cpus then 1 else 0
  {
    hide SumOf, FirstSeen, Visit, Totals;
  }

  lemma CellStep(h: seq<PidEvent>, e: PidEvent, cpu: nat, kind: HitKind, cpus: nat)
    requires Legal(h + [e], cpus) && CellHits(h, cpu, kind, cpus) + 1 < TWO_64
    ensures CellHits(h + [e], cpu, kind, cpus)
         == if e.Created? || e.Deleted? then 0
            else CellHits(h, cpu, kind, cpus) + if IsHitOn(e, cpu, kind) && cpu < cpus then 1 else 0
  {
    assert (h + [e])[..|h|] == h;
    hide SumOf, FirstSeen, SinceCreated, Next, CellOf;
    CountersCount(h, cpus);
    StateStep(After(h, cpus), e, cpu, kind, cpus);
  }

  // From one time to another a cell grows by at most the hits on its CPU in
  // between, even if the entry is deleted and created anew.
  lemma {:induction false} CellGrowth(h: seq<PidEvent>, first: nat, last: nat, cpu: nat, kind: HitKind, cpus: nat)
    requires first <= last <= |h| < TWO_64 && Legal(h, cpus)
    requires CellHits(h[..first], cpu, kind, cpus) <= first
    ensures CellHits(h[..last], cpu, kind, cpus) <= last
    ensures CellHits(h[..last], cpu, kind, cpus)
         <= CellHits(h[..first], cpu, kind, cpus) + HitsOn(h, first, last, cpu, kind)
    decreases last
  {
    hide CellHits;
    if first < last {
      CellGrowth(h, first, last - 1, cpu, kind, cpus);
      assert h[..last] == h[..last - 1] + [h[last - 1]];
      PrefixIsLegal(h, last, cpus);
      CellStep(h[..last - 1], h[last - 1], cpu, kind, cpus);
    }
  }

  // While the entry stays a cell never shrinks; once it is new, it holds at most
  // the hits since.
  lemma {:induction false} CellIsOldOrNew(h: seq<PidEvent>, first: nat, last: nat, cpu: nat, kind: HitKind, cpus: nat)
    requires first <= last <= |h| < TWO_64 && Legal(h, cpus)
    ensures SameEntry(h, first, last) ==> CellHits(h[..first], cpu, kind, cpus) <= CellHits(h[..last], cpu, kind, cpus)
    ensures !SameEntry(h, first, last) ==> CellHits(h[..last], cpu, kind, cpus) <= HitsOn(h, first, last, cpu, kind)
    decreases last
  {
    hide CellHits;
    if first < last {
      CellIsOldOrNew(h, first, last - 1, cpu, kind, cpus);
      assert h[..last] == h[..last - 1] + [h[last - 1]];
      PrefixIsLegal(h, last, cpus);
      CellsStartEmpty(h, cpu, kind, cpus);
      CellGrowth(h, 0, last - 1, cpu, kind, cpus);
      CellStep(h[..last - 1], h[last - 1], cpu, kind, cpus);
    }
  }

  lemma CellsStartEmpty(h: seq<PidEvent>, cpu: nat, kind: HitKind, cpus: nat)
    ensures CellHits(h[..0], cpu, kind, cpus) == 0
  {
  }

  // The times at which a read took its cells.
  ghost predicate ReadTimes(h: seq<PidEvent>, first: nat, last: nat, cells: seq<Cell>, times: seq<nat>, cpus: nat) {
    && first <= last <= |h| && |cells| == |times| == cpus
    && forall i :: 0 <= i < cpus ==>
         first <= times[i] <= last && HasCell(After(h[..times[i]], cpus), i, cells[i])
  }

  lemma ReadHappened(h: seq<PidEvent>, first: nat, last: nat, cells: seq<Cell>, cpus: nat) returns (times: seq<nat>)
    requires TornRead(h, first, last, cells, cpus)
    ensures ReadTimes(h, first, last, cells, times, cpus)
  {
    times := [];
    for i := 0 to cpus
      invariant |times| == i
      invariant forall j :: 0 <= j < i ==>
                  first <= times[j] <= last && HasCell(After(h[..times[j]], cpus), j, cells[j])
    {
      assert ReadAt(h, first, last, cells[i], i, cpus);
      var t :| first <= t <= last && HasCell(After(h[..t], cpus), i, cells[i]);
      times := times + [t];
    }
  }

  // A later read's cell exceeds the earlier one's by at most the hits on its CPU
  // from the start of the first read to the end of the second.
  lemma CellDelta(h: seq<PidEvent>, first: nat, t: nat, t': nat, last': nat, cpu: nat, kind: HitKind, cpus: nat)
    requires first <= t <= t' <= last' <= |h| < TWO_64 && Legal(h, cpus)
    ensures CellHits(h[..t'], cpu, kind, cpus)
         <= CellHits(h[..t], cpu, kind, cpus) + HitsOn(h, first, last', cpu, kind)
  {
    hide CellHits, Legal;
    CellsStartEmpty(h, cpu, kind, cpus);
    CellGrowth(h, 0, t, cpu, kind, cpus);
    CellGrowth(h, t, t', cpu, kind, cpus);
    HitsOnLater(h, first, t, t', cpu, kind);
    HitsOnMore(h, first, t', last', cpu, kind);
  }

  lemma {:induction false} HitsOnLater(h: seq<PidEvent>, first: nat, middle: nat, last: nat, cpu: nat, kind: HitKind)
    requires first <= middle <= last <= |h|
    ensures HitsOn(h, middle, last, cpu, kind) <= HitsOn(h, first, last, cpu, kind)
    decreases last
  {
    if middle < last {
      HitsOnLater(h, first, middle, last - 1, cpu, kind);
    }
  }

  // cells', read later, exceeds cells by at most the hits.
  ghost predicate DeltaBounded(h: seq<PidEvent>, first: nat, last: nat,
                               cells: seq<Cell>, cells': seq<Cell>, kind: HitKind)
    requires first <= last <= |h|
  {
    && |cells| == |cells'|
    && forall i :: 0 <= i < |cells| ==> cells'[i].Hits(kind) <= cells[i].Hits(kind) + HitsOn(h, first, last, i, kind)
  }

  lemma {:induction false} SumDelta(h: seq<PidEvent>, first: nat, last: nat,
                                    cells: seq<Cell>, cells': seq<Cell>, kind: HitKind)
    requires first <= last <= |h| && DeltaBounded(h, first, last, cells, cells', kind)
    ensures SumOf(cells', kind) <= SumOf(cells, kind) + HitsBelow(h, first, last, |cells|, kind)
  {
    if cells != [] {
      SumDelta(h, first, last, cells[..|cells| - 1], cells'[..|cells| - 1], kind);
    }
  }

  // Two reads of a process's entries, deletions and rebirths in between and
  // within: the second sum exceeds the first by at most the hits from the start
  // of the first read to the end of the second.
  lemma TornSums(h: seq<PidEvent>, first: nat, last: nat, cells: seq<Cell>,
                 first': nat, last': nat, cells': seq<Cell>, kind: HitKind, cpus: nat)
    requires Legal(h, cpus) && |h| < TWO_64 && last <= first'
    requires TornRead(h, first, last, cells, cpus) && TornRead(h, first', last', cells', cpus)
    ensures SumOf(cells', kind) <= SumOf(cells, kind) + HitsIn(h, first, last', kind)
  {
    hide Legal, SumOf, HitsIn, TornRead;
    var times := ReadHappened(h, first, last, cells, cpus);
    var times' := ReadHappened(h, first', last', cells', cpus);
    forall i | 0 <= i < cpus
      ensures cells'[i].Hits(kind) <= cells[i].Hits(kind) + HitsOn(h, first, last', i, kind)
    {
      CellDelta(h, first, times[i], times'[i], last', i, kind, cpus);
    }
    SumDelta(h, first, last', cells, cells', kind);
    HitsBelowAtMost(h, first, last', cpus, kind);
  }

  lemma SumOfReads(h: seq<PidEvent>, first: nat, last: nat, cells: seq<Cell>, kind: HitKind, cpus: nat)
    requires Legal(h, cpus) && |h| < TWO_64 && TornRead(h, first, last, cells, cpus)
    ensures SumOf(cells, kind) < TWO_64
  {
    hide Legal, SumOf;
    var times := ReadHappened(h, first, last, cells, cpus);
    var zeros := seq(cpus, i requires 0 <= i < cpus => Cell(0, 0, 0));
    forall i | 0 <= i < cpus ensures cells[i].Hits(kind) <= zeros[i].Hits(kind) + HitsOn(h, 0, last, i, kind) {
      CellsStartEmpty(h, i, kind, cpus);
      CellDelta(h, 0, 0, times[i], last, i, kind, cpus);
    }
    SumDelta(h, 0, last, zeros, cells, kind);
    SumOfZeros(zeros, kind);
    HitsBelowAtMost(h, 0, last, cpus, kind);
  }

  lemma {:induction false} SumOfZeros(cells: seq<Cell>, kind: HitKind)
    requires forall i :: 0 <= i < |cells| ==> cells[i].Hits(kind) == 0
    ensures SumOf(cells, kind) == 0
  {
    if cells != [] {
      SumOfZeros(cells[..|cells| - 1], kind);
    }
  }

  // So such reads keep alerts sound as long as the second ioctl total is not
  // below the stored one, which the poll can check.
  lemma TornAlertsAreSound(h: seq<PidEvent>, first: nat, last: nat, cells: seq<Cell>,
                           first': nat, last': nat, cells': seq<Cell>, now: U64, cpus: nat)
    requires Legal(h, cpus) && |h| < TWO_64 && last <= first'
    requires TornRead(h, first, last, cells, cpus) && TornRead(h, first', last', cells', cpus)
    requires Visit(Some(Totals(cells)), Totals(cells'), now).alert
    requires Totals(cells').ioctlCount >= Totals(cells).ioctlCount
    ensures HitsIn(h, first, last', IoctlHit) >= 50
  {
    hide Legal, SumOf, FirstSeen, HitsIn, TornRead, Wrap64, Visit;
    TornSums(h, first, last, cells, first', last', cells', IoctlHit, cpus);
    SumOfReads(h, first, last, cells, IoctlHit, cpus);
    SumOfReads(h, first', last', cells', IoctlHit, cpus);
    AlertDeltas(Some(Totals(cells)), Totals(cells'), now);
    SmallWrap(SumOf(cells, IoctlHit));
    SmallWrap(SumOf(cells', IoctlHit));
    SmallWrap(SumOf(cells', IoctlHit) - SumOf(cells, IoctlHit));
  }

  // And always if the entry stays while the second read lasts.
  lemma SteadyReadsAreSound(h: seq<PidEvent>, first: nat, last: nat, cells: seq<Cell>,
                            first': nat, last': nat, cells': seq<Cell>, now: U64, cpus: nat)
    requires Legal(h, cpus) && |h| < TWO_64 && last <= first'
    requires TornRead(h, first, last, cells, cpus) && TornRead(h, first', last', cells', cpus)
    requires Visit(Some(Totals(cells)), Totals(cells'), now).alert && SameEntry(h, first', last')
    ensures HitsIn(h, first, last', IoctlHit) >= 50
  {
    hide Legal, SumOf, FirstSeen, HitsIn, TornRead, CellHits, HitsOn;
    var times := ReadHappened(h, first, last, cells, cpus);
    var times' := ReadHappened(h, first', last', cells', cpus);
    SumOfReads(h, first', last', cells', IoctlHit, cpus);
    SmallWrap(SumOf(cells', IoctlHit));
    if SameEntry(h, first, first') {
      forall i | 0 <= i < cpus ensures cells[i].Hits(IoctlHit) <= cells'[i].Hits(IoctlHit) {
        CellReadsGrow(h, cells[i], times[i], cells'[i], times'[i], i, cpus);
      }
      SumsGrow(cells, cells', IoctlHit);
      SmallWrap(SumOf(cells, IoctlHit));
      TornAlertsAreSound(h, first, last, cells, first', last', cells', now, cpus);
    } else {
      var zeros := seq(cpus, i requires 0 <= i < cpus => Cell(0, 0, 0));
      forall i | 0 <= i < cpus
        ensures cells'[i].Hits(IoctlHit) <= zeros[i].Hits(IoctlHit) + HitsOn(h, first, last', i, IoctlHit)
      {
        CellIsNew(h, first, first', cells'[i], times'[i], last', i, cpus);
      }
      SumDelta(h, first, last', zeros, cells', IoctlHit);
      SumOfZeros(zeros, IoctlHit);
      HitsBelowAtMost(h, first, last', cpus, IoctlHit);
      AlertDeltas(Some(Totals(cells)), Totals(cells'), now);
    }
  }

  lemma CellReadsGrow(h: seq<PidEvent>, c: Cell, t: nat, c': Cell, t': nat, cpu: nat, cpus: nat)
    requires Legal(h, cpus) && t <= t' <= |h| < TWO_64 && SameEntry(h, t, t')
    requires HasCell(After(h[..t], cpus), cpu, c) && HasCell(After(h[..t'], cpus), cpu, c')
    ensures c.Hits(IoctlHit) <= c'.Hits(IoctlHit)
  {
    hide Legal, After;
    CellIsOldOrNew(h, t, t', cpu, IoctlHit, cpus);
  }

  lemma CellIsNew(h: seq<PidEvent>, first: nat, first': nat, c': Cell, t': nat, last': nat, cpu: nat, cpus: nat)
    requires Legal(h, cpus) && first <= first' <= t' <= last' <= |h| < TWO_64 && !SameEntry(h, first, first')
    requires HasCell(After(h[..t'], cpus), cpu, c')
    ensures c'.Hits(IoctlHit) <= HitsOn(h, first, last', cpu, IoctlHit)
  {
    hide Legal, After, HitsOn;
    CellIsOldOrNew(h, first, t', cpu, IoctlHit, cpus);
    HitsOnMore(h, first, t', last', cpu, IoctlHit);
  }

  // ---- a read that misleads ---------------------------------------------------------------

  // h followed by n ioctl hits on one CPU.
  function BurstOn(h: seq<PidEvent>, n: nat, cpu: nat): seq<PidEvent> {
    if n == 0 then h else BurstOn(h, n - 1, cpu) + [Hit(cpu, IoctlHit, true)]
  }

  lemma {:induction false} BurstOnCells(h: seq<PidEvent>, n: nat, cpu: nat, cells: seq<Cell>, cpus: nat)
    requires Legal(h, cpus) && After(h, cpus).entry == Some(cells)
    requires cpu < |cells| && cells[cpu].ioctlHits + n < TWO_64
    ensures var h' := BurstOn(h, n, cpu);
            && Legal(h', cpus) && |h'| == |h| + n && h <= h'
            && After(h', cpus).entry == Some(cells[cpu := cells[cpu].(ioctlHits := cells[cpu].ioctlHits + n)])
  {
    hide After, Legal;
    if n == 0 {
      assert cells[cpu := cells[cpu]] == cells;
    } else {
      BurstOnCells(h, n - 1, cpu, cells, cpus);
      Extend(BurstOn(h, n - 1, cpu), Hit(cpu, IoctlHit, true), cpus);
      var c := cells[cpu];
      assert cells[cpu := c.(ioctlHits := c.ioctlHits + n - 1)][cpu := c.(ioctlHits := c.ioctlHits + n)]
          == cells[cpu := c.(ioctlHits := c.ioctlHits + n)];
    }
  }

  // Two CPUs share 60 hits; a first read sees them all.
  function Shared(): seq<PidEvent> {
    BurstOn(BurstOn([Created(0, 1)], 30, 0), 30, 1)
  }

  lemma SharedCells()
    ensures var h := Shared();
            Legal(h, 2) && |h| == 61 && After(h, 2).entry == Some([Cell(30, 0, 1), Cell(30, 0, 0)])
  {
    hide Legal, After, BurstOn;
    var start, empty, half := [Created(0, 1)], [Cell(0, 0, 1), Cell(0, 0, 0)], [Cell(30, 0, 1), Cell(0, 0, 0)];
    TwoFreshCells(start);
    BurstOnCells(start, 30, 0, empty, 2);
    assert empty[0 := Cell(30, 0, 1)] == half;
    BurstOnCells(BurstOn(start, 30, 0), 30, 1, half, 2);
    assert half[1 := Cell(30, 0, 0)] == [Cell(30, 0, 1), Cell(30, 0, 0)];
  }

  lemma TwoFreshCells(h: seq<PidEvent>)
    requires h == [Created(0, 1)]
    ensures Legal(h, 2) && After(h, 2).entry == Some([Cell(0, 0, 1), Cell(0, 0, 0)])
  {
    assert h[..0] == [];
    assert FreshCells(2, 0, 1) == [Cell(0, 0, 1), Cell(0, 0, 0)];
  }

  // A second read takes the first CPU's cell 25 hits later, then there are n
  // hits on the other CPU, the entry is deleted and created anew, and the read
  // takes the other CPU's cell.
  function Misread(n: nat): seq<PidEvent> {
    BurstOn(BurstOn(Shared(), 25, 0), n, 1) + [Deleted] + [Created(0, 2 * WARMUP_NS)]
  }

  lemma MisreadCells(n: nat)
    requires 88 + n < TWO_64
    ensures var h := Misread(n);
            && |h| == 88 + n && Legal(h, 2)
            && After(h[..61], 2).entry == Some([Cell(30, 0, 1), Cell(30, 0, 0)])
            && After(h[..86], 2).entry == Some([Cell(55, 0, 1), Cell(30, 0, 0)])
            && After(h[..86 + n], 2).entry == Some([Cell(55, 0, 1), Cell(30 + n, 0, 0)])
            && After(h[..88 + n], 2).entry == Some([Cell(0, 0, 2 * WARMUP_NS), Cell(0, 0, 0)])
  {
    hide Legal, After, BurstOn, Shared;
    SharedCells();
    var cells, cells' := [Cell(30, 0, 1), Cell(30, 0, 0)], [Cell(55, 0, 1), Cell(30, 0, 0)];
    BurstOnCells(Shared(), 25, 0, cells, 2);
    assert cells[0 := Cell(55, 0, 1)] == cells';
    var h := BurstOn(Shared(), 25, 0);
    BurstOnCells(h, n, 1, cells', 2);
    assert cells'[1 := Cell(30 + n, 0, 0)] == [Cell(55, 0, 1), Cell(30 + n, 0, 0)];
    var h' := BurstOn(h, n, 1);
    Extend(h', Deleted, 2);
    Extend(h' + [Deleted], Created(0, 2 * WARMUP_NS), 2);
    assert FreshCells(2, 0, 2 * WARMUP_NS) == [Cell(0, 0, 2 * WARMUP_NS), Cell(0, 0, 0)];
    assert Misread(n)[..61] == Shared() && Misread(n)[..86] == h && Misread(n)[..86 + n] == h';
    assert Misread(n)[..88 + n] == Misread(n);
  }

  // Without either condition nothing the poll holds decides. Its total falls
  // below the stored one, so the difference wraps and it alerts; fewer than 50
  // hits, or with n at least 50 more of them, may have come from the start of
  // the first read to the end of the second.
  lemma MisreadAlert(n: nat)
    requires 88 + n < TWO_64
    ensures |Misread(n)| == 88 + n && Legal(Misread(n), 2)
    ensures AlertOfReads(Misread(n), 61, [Cell(30, 0, 1), Cell(30, 0, 0)], 88 + n, [Cell(55, 0, 1), Cell(0, 0, 0)])
    ensures n <= HitsIn(Misread(n), 61, 88 + n, IoctlHit) <= 27 + n
  {
    hide Legal, After, Misread, Shared, BurstOn, HitsIn, HitsBelow, HitsOn, Totals, CellOf;
    var h := Misread(n);
    MisreadCells(n);
    MisreadReads(h, n);
    HitsBelowAtMost(h, 61, 88 + n, 2, IoctlHit);
    MisreadHits(h, n);
    MisreadTotals();
  }

  // Two CPUs are read at once at time first, then one by one until time last,
  // and the second read alerts.
  ghost predicate AlertOfReads(h: seq<PidEvent>, first: nat, cells: seq<Cell>, last: nat, cells': seq<Cell>) {
    && TornRead(h, first, first, cells, 2) && TornRead(h, first, last, cells', 2)
    && Visit(Some(Totals(cells)), Totals(cells'), 4 * WARMUP_NS).alert
  }

  lemma MisreadReads(h: seq<PidEvent>, n: nat)
    requires |h| == 88 + n && After(h[..61], 2).entry == Some([Cell(30, 0, 1), Cell(30, 0, 0)])
    requires After(h[..86], 2).entry == Some([Cell(55, 0, 1), Cell(30, 0, 0)])
    requires After(h[..88 + n], 2).entry == Some([Cell(0, 0, 2 * WARMUP_NS), Cell(0, 0, 0)])
    ensures TornRead(h, 61, 61, [Cell(30, 0, 1), Cell(30, 0, 0)], 2)
    ensures TornRead(h, 61, 88 + n, [Cell(55, 0, 1), Cell(0, 0, 0)], 2)
  {
    hide After;
    assert HasCell(After(h[..61], 2), 0, Cell(30, 0, 1)) && HasCell(After(h[..61], 2), 1, Cell(30, 0, 0));
    assert HasCell(After(h[..86], 2), 0, Cell(55, 0, 1)) && HasCell(After(h[..88 + n], 2), 1, Cell(0, 0, 0));
  }

  lemma MisreadHits(h: seq<PidEvent>, n: nat)
    requires |h| == 88 + n < TWO_64 && Legal(h, 2)
    requires After(h[..61], 2).entry == Some([Cell(30, 0, 1), Cell(30, 0, 0)])
    requires After(h[..86 + n], 2).entry == Some([Cell(55, 0, 1), Cell(30 + n, 0, 0)])
    ensures HitsBelow(h, 61, 88 + n, 2, IoctlHit) >= n
  {
    hide Legal, After, HitsOn;
    CellGrowth(h, 61, 86 + n, 1, IoctlHit, 2);
    HitsOnMore(h, 61, 86 + n, 88 + n, 1, IoctlHit);
    assert HitsBelow(h, 61, 88 + n, 2, IoctlHit)
        == HitsBelow(h, 61, 88 + n, 1, IoctlHit) + HitsOn(h, 61, 88 + n, 1, IoctlHit);
  }

  lemma MisreadTotals()
    ensures Totals([Cell(30, 0, 1), Cell(30, 0, 0)]) == Snapshot(60, 0, 1)
    ensures Totals([Cell(55, 0, 1), Cell(0, 0, 0)]) == Snapshot(55, 0, 1)
  {
    TwoTotals(Cell(30, 0, 1), Cell(30, 0, 0));
    TwoTotals(Cell(55, 0, 1), Cell(0, 0, 0));
  }

  lemma TwoTotals(c: Cell, d: Cell)
    requires c.firstSeen > 0 && d.firstSeen == 0
    ensures Totals([c, d]) == Snapshot(Add64(c.ioctlHits, d.ioctlHits), Add64(c.uprobeHits, d.uprobeHits), c.firstSeen)
  {
    assert Totals([]) == Snapshot(0, 0, 0);
    hide Totals;
    TotalsAppend([], c);
    TotalsAppend([c], d);
    assert [] + [c] == [c] && [c] + [d] == [c, d];
  }
}
