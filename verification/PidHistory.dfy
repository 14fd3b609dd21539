// What happens to one process's watchdog entry, as a history of events: the
// entry is created, hit on some CPU, deleted when a thread exits, and polled.
// A hit is the process's own, or a stray one of another process's handler that
// still points into a reused element; a call that leaves no hit is lost.
module PidHistory {
  import opened Wrappers
  import opened Arith
  import opened Watchdog

  datatype PidEvent =
    | Created(cpu: nat, stamp: U64)
    | Hit(cpu: nat, kind: HitKind, own: bool)
    | Lost(kind: HitKind)
    | Deleted
    | Polled(now: U64)

  datatype PidState = PidState(entry: Option<seq<Cell>>, snapshot: Option<Snapshot>)

  // Creating a per-CPU element writes the creator's slot and zeroes the others.
  function FreshCells(cpus: nat, cpu: nat, stamp: U64): (cells: seq<Cell>)
    ensures |cells| == cpus
  {
    seq(cpus, i requires 0 <= i < cpus => Cell(0, 0, if i == cpu then stamp else 0))
  }

  predicate Applies(s: PidState, e: PidEvent, cpus: nat) {
    match e
    case Created(cpu, stamp) => s.entry == None && cpu < cpus && stamp > 0
    case Hit(cpu, _, _) => s.entry.Some? && cpu < |s.entry.value|
    case Lost(_) => true
    case Deleted => s.entry.Some?
    case Polled(_) => s.entry.Some?
  }

  function Next(s: PidState, e: PidEvent, cpus: nat): PidState {
    if !Applies(s, e, cpus) then s
    else
      match e
      case Created(cpu, stamp) => s.(entry := Some(FreshCells(cpus, cpu, stamp)))
      case Hit(cpu, kind, _) =>
        var cells := s.entry.value;
        s.(entry := Some(cells[cpu := cells[cpu].Bumped(kind)]))
      case Lost(_) => s
      case Deleted => s.(entry := None)
      case Polled(now) => s.(snapshot := Visit(s.snapshot, Totals(s.entry.value), now).snapshot)
  }

  function After(h: seq<PidEvent>, cpus: nat): PidState {
    if h == [] then PidState(None, None) else Next(After(h[..|h| - 1], cpus), h[|h| - 1], cpus)
  }

  // Every event of the history really happened to the entry.
  ghost predicate Legal(h: seq<PidEvent>, cpus: nat) {
    h == [] || (Legal(h[..|h| - 1], cpus) && Applies(After(h[..|h| - 1], cpus), h[|h| - 1], cpus))
  }

  // What each event does.
  lemma EventsDo(s: PidState, e: PidEvent, cpus: nat)
    requires Applies(s, e, cpus)
    ensures var s' := Next(s, e, cpus);
            match e
            case Created(cpu, stamp) =>
              && s.entry == None && cpu < cpus && s'.snapshot == s.snapshot
              && s'.entry.Some? && |s'.entry.value| == cpus
              && forall i :: 0 <= i < cpus ==> s'.entry.value[i] == Cell(0, 0, if i == cpu then stamp else 0)
            case Hit(cpu, kind, _) =>
              && s.entry.Some? && cpu < |s.entry.value| && s'.snapshot == s.snapshot && s'.entry.Some?
              && |s'.entry.value| == |s.entry.value|
              && (forall i :: 0 <= i < |s.entry.value| && i != cpu ==> s'.entry.value[i] == s.entry.value[i])
              && var c, c' := s.entry.value[cpu], s'.entry.value[cpu];
                 && c'.firstSeen == c.firstSeen
                 && c'.ioctlHits == (if kind == IoctlHit then (c.ioctlHits + 1) % TWO_64 else c.ioctlHits)
                 && c'.uprobeHits == (if kind == UprobeHit then (c.uprobeHits + 1) % TWO_64 else c.uprobeHits)
            case Lost(_) => s' == s
            case Deleted => s.entry.Some? && s' == PidState(None, s.snapshot)
            case Polled(now) =>
              && s.entry.Some? && s'.entry == s.entry
              && s'.snapshot == Visit(s.snapshot, Totals(s.entry.value), now).snapshot
  {
  }

  lemma Extend(h: seq<PidEvent>, e: PidEvent, cpus: nat)
    requires Legal(h, cpus) && Applies(After(h, cpus), e, cpus)
    ensures Legal(h + [e], cpus) && After(h + [e], cpus) == Next(After(h, cpus), e, cpus)
  {
    assert (h + [e])[..|h|] == h && (h + [e])[|h|] == e;
  }

  predicate Stores(s: PidState, now: U64) {
    s.entry.Some? && Qualifies(Totals(s.entry.value), now)
  }

  predicate Alerts(s: PidState, now: U64) {
    s.entry.Some? && Visit(s.snapshot, Totals(s.entry.value), now).alert
  }

  // ---- counting hits ------------------------------------------------------------

  predicate IsHit(e: PidEvent, kind: HitKind) {
    e.Hit? && e.kind == kind
  }

  // Hits since the entry was last created.
  function SinceCreated(h: seq<PidEvent>, kind: HitKind): nat {
    if h == [] || h[|h| - 1].Created? then 0
    else SinceCreated(h[..|h| - 1], kind) + if IsHit(h[|h| - 1], kind) then 1 else 0
  }

  // Hits since the last poll.
  function SincePolled(h: seq<PidEvent>, kind: HitKind): nat {
    if h == [] || h[|h| - 1].Polled? then 0
    else SincePolled(h[..|h| - 1], kind) + if IsHit(h[|h| - 1], kind) then 1 else 0
  }

  ghost predicate StoredLast(h: seq<PidEvent>, cpus: nat)
    requires h != []
  {
    h[|h| - 1].Polled? && Stores(After(h[..|h| - 1], cpus), h[|h| - 1].now)
  }

  // Hits since the last poll that stored a snapshot, across any deletions.
  ghost function SinceStored(h: seq<PidEvent>, kind: HitKind, cpus: nat): nat {
    if h == [] || StoredLast(h, cpus) then 0
    else SinceStored(h[..|h| - 1], kind, cpus) + if IsHit(h[|h| - 1], kind) then 1 else 0
  }

  // The entry was created anew after the last stored snapshot.
  ghost predicate Reborn(h: seq<PidEvent>, cpus: nat) {
    h != [] && !StoredLast(h, cpus) && (h[|h| - 1].Created? || Reborn(h[..|h| - 1], cpus))
  }

  datatype Creator = Creator(cpu: nat, stamp: U64)

  // Who created the entry last, and when.
  function CreatedBy(h: seq<PidEvent>): Option<Creator> {
    if h == [] then None
    else if h[|h| - 1].Created? then Some(Creator(h[|h| - 1].cpu, h[|h| - 1].stamp)) else CreatedBy(h[..|h| - 1])
  }

  // ---- the counters count ----------------------------------------------------------

  lemma {:induction false} FreshCellsAreEmpty(cpus: nat, cpu: nat, stamp: U64, kind: HitKind)
    ensures SumOf(FreshCells(cpus, cpu, stamp), kind) == 0
    ensures FirstSeen(FreshCells(cpus, cpu, stamp)) == if cpu < cpus then stamp else 0
  {
    if cpus > 0 {
      FreshCellsAreEmpty(cpus - 1, cpu, stamp, kind);
      assert FreshCells(cpus, cpu, stamp)[..cpus - 1] == FreshCells(cpus - 1, cpu, stamp);
    }
  }

  lemma WrapIncrement(s: nat, v: U64)
    ensures Wrap64(s - v + Add64(v, 1)) == Wrap64(s + 1)
  {
    var wraps := if v + 1 == TWO_64 then 1 else 0;
    assert s + 1 == s - v + Add64(v, 1) + wraps * 0x1_0000_0000_0000_0000;
    Wrap64Shift(s - v + Add64(v, 1), wraps);
  }

  // The cells of an entry, given its history: exactly one slot carries a
  // first-seen time, the creator's, and the wrapped sums are the hit counts.
  ghost predicate CellsMatch(cells: seq<Cell>, h: seq<PidEvent>, cpus: nat) {
    && |cells| == cpus
    && (forall kind :: Wrap64(SumOf(cells, kind)) == Wrap64(SinceCreated(h, kind)))
    && CreatedBy(h).Some?
    && var c := CreatedBy(h).value;
       && c.cpu < cpus && c.stamp > 0
       && FirstSeen(cells) == c.stamp
       && forall i :: 0 <= i < cpus ==> cells[i].firstSeen == if i == c.cpu then c.stamp else 0
  }

  lemma CreatedCellsMatch(h: seq<PidEvent>, cpu: nat, stamp: U64, cpus: nat)
    requires cpu < cpus && stamp > 0
    ensures CellsMatch(FreshCells(cpus, cpu, stamp), h + [Created(cpu, stamp)], cpus)
  {
    FreshCellsAreEmpty(cpus, cpu, stamp, IoctlHit);
    FreshCellsAreEmpty(cpus, cpu, stamp, UprobeHit);
  }

  lemma SinceCreatedAppend(h: seq<PidEvent>, e: PidEvent, kind: HitKind)
    requires !e.Created?
    ensures SinceCreated(h + [e], kind) == SinceCreated(h, kind) + if IsHit(e, kind) then 1 else 0
    ensures CreatedBy(h + [e]) == CreatedBy(h)
  {
    assert (h + [e])[..|h|] == h;
  }

  lemma BumpedSum(cells: seq<Cell>, cpu: nat, hit: HitKind, kind: HitKind, n: nat)
    requires cpu < |cells| && Wrap64(SumOf(cells, kind)) == Wrap64(n)
    ensures Wrap64(SumOf(cells[cpu := cells[cpu].Bumped(hit)], kind)) == Wrap64(n + if hit == kind then 1 else 0)
  {
    hide SumOf;
    SumOfUpdate(cells, cpu, cells[cpu].Bumped(hit), kind);
    if hit == kind {
      var s, v := SumOf(cells, kind), cells[cpu].Hits(kind);
      assert cells[cpu].Bumped(hit).Hits(kind) == Add64(v, 1);
      hide Wrap64, Add64;
      WrapIncrement(s, v);
      Wrap64Add(s, 1);
      Wrap64Add(n, 1);
    }
  }

  lemma BumpedCellsMatch(cells: seq<Cell>, h: seq<PidEvent>, e: PidEvent, cpus: nat)
    requires CellsMatch(cells, h, cpus) && e.Hit? && e.cpu < cpus
    ensures CellsMatch(cells[e.cpu := cells[e.cpu].Bumped(e.kind)], h + [e], cpus)
  {
    hide SumOf, FirstSeen, Wrap64, SinceCreated, CreatedBy;
    var cells' := cells[e.cpu := cells[e.cpu].Bumped(e.kind)];
    forall kind: HitKind ensures Wrap64(SumOf(cells', kind)) == Wrap64(SinceCreated(h + [e], kind)) {
      BumpedSum(cells, e.cpu, e.kind, kind, SinceCreated(h, kind));
      SinceCreatedAppend(h, e, kind);
    }
    SinceCreatedAppend(h, e, e.kind);
    FirstSeenUpdate(cells, e.cpu, cells[e.cpu].Bumped(e.kind));
  }

  lemma SameCellsMatch(cells: seq<Cell>, h: seq<PidEvent>, e: PidEvent, cpus: nat)
    requires CellsMatch(cells, h, cpus) && (e.Polled? || e.Deleted? || e.Lost?)
    ensures CellsMatch(cells, h + [e], cpus)
  {
    hide SumOf, FirstSeen, Wrap64, SinceCreated, CreatedBy;
    forall kind: HitKind ensures SinceCreated(h + [e], kind) == SinceCreated(h, kind) {
      SinceCreatedAppend(h, e, kind);
    }
    SinceCreatedAppend(h, e, IoctlHit);
  }

  // No hit is lost or counted twice, whatever the interleaving of CPUs: the
  // cells always sum to the hits since creation, and the smallest non-zero
  // first-seen time is the creator's stamp.
  lemma {:induction false} CountersCount(h: seq<PidEvent>, cpus: nat)
    requires Legal(h, cpus)
    ensures After(h, cpus).entry.Some? ==> CellsMatch(After(h, cpus).entry.value, h, cpus)
  {
    if h != [] {
      var init, e := h[..|h| - 1], h[|h| - 1];
      CountersCount(init, cpus);
      var s := After(init, cpus);
      assert h == init + [e];
      hide CellsMatch, FreshCells, Visit;
      match e
      case Created(cpu, stamp) => CreatedCellsMatch(init, cpu, stamp, cpus);
      case Hit(_, _, _) =>
        CellsMatchSize(s.entry.value, init, cpus);
        BumpedCellsMatch(s.entry.value, init, e, cpus);
      case Deleted =>
      case _ => if s.entry.Some? { SameCellsMatch(s.entry.value, init, e, cpus); }
    }
  }

  lemma CellsMatchSize(cells: seq<Cell>, h: seq<PidEvent>, cpus: nat)
    requires CellsMatch(cells, h, cpus)
    ensures |cells| == cpus
  {
  }

  // What poll sees of an entry.
  lemma PolledTotals(h: seq<PidEvent>, cpus: nat)
    requires Legal(h, cpus) && After(h, cpus).entry.Some?
    ensures CreatedBy(h).Some?
    ensures Totals(After(h, cpus).entry.value)
         == Snapshot(Wrap64(SinceCreated(h, IoctlHit)), Wrap64(SinceCreated(h, UprobeHit)), CreatedBy(h).value.stamp)
  {
    CountersCount(h, cpus);
  }

  // ---- alerts are sound, whatever is deleted and reused ---------------------------

  // What a stored snapshot still says about the hits.
  ghost predicate SnapshotMeaning(h: seq<PidEvent>, cpus: nat) {
    After(h, cpus).snapshot.Some? ==>
      var s := After(h, cpus).snapshot.value;
      if Reborn(h, cpus) then
        && SinceCreated(h, IoctlHit) <= SinceStored(h, IoctlHit, cpus)
        && SinceCreated(h, UprobeHit) <= SinceStored(h, UprobeHit, cpus)
      else
        && CreatedBy(h).Some? && s.firstSeenNs == CreatedBy(h).value.stamp
        && SinceStored(h, IoctlHit, cpus) <= SinceCreated(h, IoctlHit)
        && SinceStored(h, UprobeHit, cpus) <= SinceCreated(h, UprobeHit)
        && s.ioctlCount == Wrap64(SinceCreated(h, IoctlHit) - SinceStored(h, IoctlHit, cpus))
        && s.uprobeCount == Wrap64(SinceCreated(h, UprobeHit) - SinceStored(h, UprobeHit, cpus))
  }

  lemma {:induction false} SnapshotsMean(h: seq<PidEvent>, cpus: nat)
    requires Legal(h, cpus)
    ensures SnapshotMeaning(h, cpus)
  {
    if h != [] {
      var init, e := h[..|h| - 1], h[|h| - 1];
      SnapshotsMean(init, cpus);
      hide Wrap64, SumOf, FirstSeen;
      if e.Polled? {
        PolledTotals(init, cpus);
      }
    }
  }

  // Every alert means at least 50 ioctl hits were recorded for the process
  // after its last stored snapshot, through any number of deletions, reuses
  // and counter wrap-arounds.
  lemma AlertsAreSound(h: seq<PidEvent>, now: U64, cpus: nat)
    requires Legal(h, cpus) && Alerts(After(h, cpus), now)
    ensures SinceStored(h, IoctlHit, cpus) >= 50
  {
    hide After, Legal, SinceCreated, SinceStored, Reborn, Totals, Visit, Wrap64, Sub64;
    SnapshotsMean(h, cpus);
    PolledTotals(h, cpus);
    AlertDeltas(After(h, cpus).snapshot, Totals(After(h, cpus).entry.value), now);
    var created, stored := SinceCreated(h, IoctlHit), SinceStored(h, IoctlHit, cpus);
    WrapAtMost(created);
    WrapAtMost(stored);
    if !Reborn(h, cpus) {
      SubOfWraps(created, stored);
    }
  }

  lemma AlertDeltas(prev: Option<Snapshot>, total: Snapshot, now: U64)
    requires Visit(prev, total, now).alert
    ensures prev.Some? && total.ioctlCount >= 50
    ensures Sub64(total.ioctlCount, prev.value.ioctlCount) >= 50
  {
  }

  // The wrapped difference of two totals is the wrapped number of hits between.
  lemma SubOfWraps(created: nat, stored: nat)
    ensures Sub64(Wrap64(created), Wrap64(created - stored)) == Wrap64(stored)
  {
    Wrap64Sub(created, created - stored);
  }

  lemma WrapAtMost(n: nat)
    ensures Wrap64(n) <= n
  {
  }

  // Within one generation, the exact condition: a qualifying poll alerts if
  // and only if, modulo 2^64, at least 50 ioctl hits and no uprobe hits came
  // since the stored snapshot.
  lemma AlertsIff(h: seq<PidEvent>, now: U64, cpus: nat)
    requires Legal(h, cpus) && After(h, cpus).entry.Some?
    requires After(h, cpus).snapshot.Some? && !Reborn(h, cpus)
    ensures Alerts(After(h, cpus), now) <==>
              && Stores(After(h, cpus), now)
              && Wrap64(SinceStored(h, IoctlHit, cpus)) >= 50
              && Wrap64(SinceStored(h, UprobeHit, cpus)) == 0
  {
    hide SumOf, FirstSeen, After, Legal, SinceCreated, SinceStored, Reborn, Wrap64, Sub64, Totals;
    SnapshotsMean(h, cpus);
    PolledTotals(h, cpus);
    SubOfWraps(SinceCreated(h, IoctlHit), SinceStored(h, IoctlHit, cpus));
    SubOfWraps(SinceCreated(h, UprobeHit), SinceStored(h, UprobeHit, cpus));
  }

  // ---- pid reuse: when an alert is wrong, and when one is missing -----------------

  // The condition of AlertsIff without its generation: whatever has happened
  // before, a poll compares the hits since creation with the stored numbers.
  lemma AlertsCompareTotals(h: seq<PidEvent>, now: U64, cpus: nat)
    requires Legal(h, cpus) && After(h, cpus).entry.Some? && After(h, cpus).snapshot.Some?
    ensures var s := After(h, cpus).snapshot.value;
            Alerts(After(h, cpus), now) <==>
              && Stores(After(h, cpus), now)
              && Sub64(Wrap64(SinceCreated(h, IoctlHit)), s.ioctlCount) >= 50
              && Wrap64(SinceCreated(h, UprobeHit)) == s.uprobeCount
  {
    hide SumOf, FirstSeen, After, Legal, SinceCreated, Totals;
    PolledTotals(h, cpus);
  }

  // What the entry records of a bypass: ioctl hits and no uprobe hit since the
  // last stored snapshot.
  ghost predicate RecordedBypass(h: seq<PidEvent>, cpus: nat) {
    SinceStored(h, IoctlHit, cpus) >= 50 && SinceStored(h, UprobeHit, cpus) == 0
  }

  ghost predicate FewHits(h: seq<PidEvent>) {
    SinceCreated(h, IoctlHit) < TWO_64 && SinceCreated(h, UprobeHit) < TWO_64
  }

  // An alert finds one in the record unless the entry is reborn; then only if
  // the old snapshot counted no uprobe hit and none came before the rebirth.
  lemma AlertMatchesRecordIff(h: seq<PidEvent>, now: U64, cpus: nat)
    requires Legal(h, cpus) && FewHits(h) && Alerts(After(h, cpus), now)
    ensures After(h, cpus).snapshot.Some?
    ensures RecordedBypass(h, cpus) <==>
              || !Reborn(h, cpus)
              || (After(h, cpus).snapshot.value.uprobeCount == 0
                  && SinceStored(h, UprobeHit, cpus) == SinceCreated(h, UprobeHit))
  {
    hide After, Legal, SinceCreated, SinceStored, Reborn, Stores, Totals;
    SnapshotsMean(h, cpus);
    AlertDeltas(After(h, cpus).snapshot, Totals(After(h, cpus).entry.value), now);
    AlertsAreSound(h, now, cpus);
    SmallWrap(SinceCreated(h, UprobeHit));
    hide Alerts, Sub64;
    AlertsCompareTotals(h, now, cpus);
    if !Reborn(h, cpus) {
      SmallWrap(SinceStored(h, UprobeHit, cpus));
      AlertsIff(h, now, cpus);
    }
  }

  // A recorded bypass is alerted by a qualifying poll unless the entry is reborn; then
  // only if the old snapshot counted no uprobe hit and the new ioctl total
  // is not within 50 above the old one.
  lemma BypassIsAlertedIff(h: seq<PidEvent>, now: U64, cpus: nat)
    requires Legal(h, cpus) && FewHits(h) && Stores(After(h, cpus), now)
    requires After(h, cpus).snapshot.Some? && RecordedBypass(h, cpus)
    ensures var s, total := After(h, cpus).snapshot.value, SinceCreated(h, IoctlHit);
            Alerts(After(h, cpus), now) <==>
              || !Reborn(h, cpus)
              || (s.uprobeCount == 0 && !(s.ioctlCount <= total < s.ioctlCount + 50))
  {
    hide After, Legal, SinceCreated, SinceStored, Reborn, Alerts, Totals;
    SnapshotsMean(h, cpus);
    PolledTotals(h, cpus);
    SmallWrap(SinceCreated(h, IoctlHit));
    SmallWrap(SinceCreated(h, UprobeHit));
    AlertsCompareTotals(h, now, cpus);
    if !Reborn(h, cpus) {
      SmallWrap(SinceStored(h, IoctlHit, cpus));
      SmallWrap(SinceStored(h, UprobeHit, cpus));
      AlertsIff(h, now, cpus);
    }
  }

  // The stamps of all creations, and that no two share one.
  function Stamps(h: seq<PidEvent>): set<U64> {
    if h == [] then {}
    else Stamps(h[..|h| - 1]) + if h[|h| - 1].Created? then {h[|h| - 1].stamp} else {}
  }

  ghost predicate DistinctStamps(h: seq<PidEvent>) {
    h == [] || (
      var init, e := h[..|h| - 1], h[|h| - 1];
      DistinctStamps(init) && (e.Created? ==> e.stamp !in Stamps(init)))
  }

  // A poll could tell: the snapshot keeps the stamp of the entry it came from,
  // which differs from the current one exactly when the entry is reborn.
  lemma {:induction false} StampsTellRebirth(h: seq<PidEvent>, cpus: nat)
    requires Legal(h, cpus) && After(h, cpus).snapshot.Some?
    ensures CreatedBy(h).Some? && CreatedBy(h).value.stamp in Stamps(h)
    ensures After(h, cpus).snapshot.value.firstSeenNs in Stamps(h)
    ensures !Reborn(h, cpus) ==> After(h, cpus).snapshot.value.firstSeenNs == CreatedBy(h).value.stamp
    ensures DistinctStamps(h) && Reborn(h, cpus) ==>
              After(h, cpus).snapshot.value.firstSeenNs != CreatedBy(h).value.stamp
  {
    var init, e := h[..|h| - 1], h[|h| - 1];
    hide SumOf, FirstSeen, Wrap64, Sub64;
    if e.Polled? {
      PolledTotals(init, cpus);
      CreatorIsStamped(init);
    }
    if After(init, cpus).snapshot.Some? {
      StampsTellRebirth(init, cpus);
    }
  }

  lemma {:induction false} CreatorIsStamped(h: seq<PidEvent>)
    ensures CreatedBy(h).Some? ==> CreatedBy(h).value.stamp in Stamps(h)
  {
    if h != [] {
      CreatorIsStamped(h[..|h| - 1]);
    }
  }

  // ---- what the process really did ---------------------------------------------------

  // A call is made when its counting probe fires: it leaves a hit of its own or
  // is lost.
  datatype Note = Call | LostCall | Stray

  predicate IsNote(e: PidEvent, note: Note, kind: HitKind) {
    match note
    case Call => (IsHit(e, kind) && e.own) || e == Lost(kind)
    case LostCall => e == Lost(kind)
    case Stray => IsHit(e, kind) && !e.own
  }

  // How often since the last stored snapshot.
  ghost function NotedSince(h: seq<PidEvent>, note: Note, kind: HitKind, cpus: nat): nat {
    if h == [] || StoredLast(h, cpus) then 0
    else NotedSince(h[..|h| - 1], note, kind, cpus) + if IsNote(h[|h| - 1], note, kind) then 1 else 0
  }

  lemma {:induction false} CallsAndHits(h: seq<PidEvent>, kind: HitKind, cpus: nat)
    ensures NotedSince(h, Call, kind, cpus) + NotedSince(h, Stray, kind, cpus)
         == SinceStored(h, kind, cpus) + NotedSince(h, LostCall, kind, cpus)
    ensures NotedSince(h, LostCall, kind, cpus) <= NotedSince(h, Call, kind, cpus)
  {
    if h != [] && !StoredLast(h, cpus) {
      hide StoredLast;
      CallsAndHits(h[..|h| - 1], kind, cpus);
    }
  }

  // What an alert is meant to say: the process used the device and made no
  // library call since its last stored snapshot.
  ghost predicate Bypassing(h: seq<PidEvent>, cpus: nat) {
    NotedSince(h, Call, IoctlHit, cpus) >= 50 && NotedSince(h, Call, UprobeHit, cpus) == 0
  }

  // For an entry that is not reborn an alert says so truly if and only if no
  // library call was lost, as long as no stray ioctl hits helped to raise it.
  lemma AlertIsRightIff(h: seq<PidEvent>, now: U64, cpus: nat)
    requires Legal(h, cpus) && FewHits(h) && Alerts(After(h, cpus), now) && !Reborn(h, cpus)
    ensures Bypassing(h, cpus) <==>
              && NotedSince(h, LostCall, UprobeHit, cpus) == 0
              && SinceStored(h, IoctlHit, cpus) + NotedSince(h, LostCall, IoctlHit, cpus)
                 >= NotedSince(h, Stray, IoctlHit, cpus) + 50
    ensures NotedSince(h, Stray, IoctlHit, cpus) == 0 ==>
              (Bypassing(h, cpus) <==> NotedSince(h, LostCall, UprobeHit, cpus) == 0)
  {
    hide After, Legal, FewHits, Alerts, SinceCreated, SinceStored, Reborn, NotedSince;
    AlertMatchesRecordIff(h, now, cpus);
    CallsAndHits(h, IoctlHit, cpus);
    CallsAndHits(h, UprobeHit, cpus);
  }

  // The poll holds both stamps: the snapshot's and the entry's.
  lemma TotalsTellRebirth(h: seq<PidEvent>, cpus: nat)
    requires Legal(h, cpus) && DistinctStamps(h) && After(h, cpus).entry.Some? && After(h, cpus).snapshot.Some?
    ensures Reborn(h, cpus) <==>
              After(h, cpus).snapshot.value.firstSeenNs != Totals(After(h, cpus).entry.value).firstSeenNs
  {
    hide After, Legal, DistinctStamps, Reborn, Totals, SinceCreated;
    StampsTellRebirth(h, cpus);
    PolledTotals(h, cpus);
  }

  // While the stamps agree, an alert is right if and only if no library call was
  // lost.
  lemma SameStampAlert(h: seq<PidEvent>, now: U64, cpus: nat)
    requires Legal(h, cpus) && DistinctStamps(h) && FewHits(h) && Alerts(After(h, cpus), now)
    requires After(h, cpus).snapshot.Some?
    requires After(h, cpus).snapshot.value.firstSeenNs == Totals(After(h, cpus).entry.value).firstSeenNs
    ensures RecordedBypass(h, cpus)
    ensures NotedSince(h, Stray, IoctlHit, cpus) == 0 ==>
              (Bypassing(h, cpus) <==> NotedSince(h, LostCall, UprobeHit, cpus) == 0)
  {
    hide After, Legal, DistinctStamps, Reborn, Totals, SinceCreated, SinceStored, NotedSince, Stores, Visit;
    TotalsTellRebirth(h, cpus);
    AlertMatchesRecordIff(h, now, cpus);
    AlertIsRightIff(h, now, cpus);
  }

  // When they differ and the old snapshot counted more uprobe hits than stray
  // ones have come since, the alert is wrong.
  lemma OtherStampAlert(h: seq<PidEvent>, now: U64, cpus: nat)
    requires Legal(h, cpus) && DistinctStamps(h) && FewHits(h) && Alerts(After(h, cpus), now)
    requires After(h, cpus).snapshot.Some?
    requires After(h, cpus).snapshot.value.firstSeenNs != Totals(After(h, cpus).entry.value).firstSeenNs
    requires After(h, cpus).snapshot.value.uprobeCount > NotedSince(h, Stray, UprobeHit, cpus)
    ensures !RecordedBypass(h, cpus) && !Bypassing(h, cpus)
  {
    hide After, Legal, DistinctStamps, Reborn, Totals, SinceCreated, SinceStored, NotedSince, Stores;
    TotalsTellRebirth(h, cpus);
    SnapshotsMean(h, cpus);
    CallsAndHits(h, UprobeHit, cpus);
    SmallWrap(SinceCreated(h, UprobeHit));
    hide Alerts, Sub64;
    AlertsCompareTotals(h, now, cpus);
  }

  // A real bypass shows in the record if and only if no stray uprobe hit came
  // and at least 50 of its ioctl hits were recorded.
  lemma BypassIsRecordedIff(h: seq<PidEvent>, cpus: nat)
    requires Bypassing(h, cpus)
    ensures RecordedBypass(h, cpus) <==>
              NotedSince(h, Stray, UprobeHit, cpus) == 0 && SinceStored(h, IoctlHit, cpus) >= 50
    ensures NotedSince(h, LostCall, IoctlHit, cpus) == 0 ==> SinceStored(h, IoctlHit, cpus) >= 50
  {
    hide SinceStored, NotedSince;
    CallsAndHits(h, IoctlHit, cpus);
    CallsAndHits(h, UprobeHit, cpus);
  }

  // ---- histories that go wrong ---------------------------------------------------------

  // h followed by n hits of its own on the first CPU.
  function Burst(h: seq<PidEvent>, n: nat, kind: HitKind): seq<PidEvent> {
    if n == 0 then h else Burst(h, n - 1, kind) + [Hit(0, kind, true)]
  }

  // What h leaves of its calls, none of them lost and no hit stray.
  ghost predicate Counts(h: seq<PidEvent>, ioctl: nat, uprobe: nat, cpus: nat) {
    && SinceStored(h, IoctlHit, cpus) == NotedSince(h, Call, IoctlHit, cpus) == ioctl
    && SinceStored(h, UprobeHit, cpus) == NotedSince(h, Call, UprobeHit, cpus) == uprobe
    && NotedSince(h, Stray, IoctlHit, cpus) == NotedSince(h, LostCall, IoctlHit, cpus) == 0
    && NotedSince(h, Stray, UprobeHit, cpus) == NotedSince(h, LostCall, UprobeHit, cpus) == 0
  }

  // h' is h with n more hits of a kind.
  ghost predicate Grown(h: seq<PidEvent>, h': seq<PidEvent>, n: nat, kind: HitKind, cpus: nat) {
    && Legal(h', cpus) && After(h', cpus).entry.Some? && After(h', cpus).snapshot == After(h, cpus).snapshot
    && CreatedBy(h') == CreatedBy(h) && Reborn(h', cpus) == Reborn(h, cpus)
    && (forall k :: SinceCreated(h', k) == SinceCreated(h, k) + if k == kind then n else 0)
    && (forall i: nat, u: nat :: Counts(h, i, u, cpus) ==>
          Counts(h', if kind == IoctlHit then i + n else i, if kind == UprobeHit then u + n else u, cpus))
  }

  lemma NotedAppend(h: seq<PidEvent>, e: PidEvent, note: Note, kind: HitKind, cpus: nat)
    requires !e.Polled?
    ensures NotedSince(h + [e], note, kind, cpus)
         == NotedSince(h, note, kind, cpus) + if IsNote(e, note, kind) then 1 else 0
    ensures SinceStored(h + [e], kind, cpus) == SinceStored(h, kind, cpus) + if IsHit(e, kind) then 1 else 0
  {
    hide After, Stores;
    assert (h + [e])[..|h|] == h;
  }

  lemma AllNotedAppend(h: seq<PidEvent>, e: PidEvent, kind: HitKind, cpus: nat)
    requires !e.Polled?
    ensures SinceStored(h + [e], kind, cpus) == SinceStored(h, kind, cpus) + if IsHit(e, kind) then 1 else 0
    ensures forall note :: NotedSince(h + [e], note, kind, cpus)
                        == NotedSince(h, note, kind, cpus) + if IsNote(e, note, kind) then 1 else 0
  {
    hide NotedSince, SinceStored;
    NotedAppend(h, e, Call, kind, cpus);
    NotedAppend(h, e, LostCall, kind, cpus);
    NotedAppend(h, e, Stray, kind, cpus);
  }

  lemma CountOneMore(h: seq<PidEvent>, kind: HitKind, i: nat, u: nat, cpus: nat)
    requires Counts(h, i, u, cpus)
    ensures Counts(h + [Hit(0, kind, true)], if kind == IoctlHit then i + 1 else i,
                   if kind == UprobeHit then u + 1 else u, cpus)
  {
    hide NotedSince, SinceStored;
    AllNotedAppend(h, Hit(0, kind, true), IoctlHit, cpus);
    AllNotedAppend(h, Hit(0, kind, true), UprobeHit, cpus);
  }

  lemma CountNoMore(h: seq<PidEvent>, e: PidEvent, i: nat, u: nat, cpus: nat)
    requires Counts(h, i, u, cpus) && (e.Created? || e.Deleted?)
    ensures Counts(h + [e], i, u, cpus)
  {
    hide NotedSince, SinceStored;
    AllNotedAppend(h, e, IoctlHit, cpus);
    AllNotedAppend(h, e, UprobeHit, cpus);
  }

  lemma GrowsByOne(h: seq<PidEvent>, h': seq<PidEvent>, n: nat, kind: HitKind, cpus: nat)
    requires cpus > 0 && Grown(h, h', n, kind, cpus)
    ensures Grown(h, h' + [Hit(0, kind, true)], n + 1, kind, cpus)
  {
    hide After, Legal, CellsMatch, SinceCreated, SinceStored, SincePolled, CreatedBy, Reborn, Counts;
    var e := Hit(0, kind, true);
    CountersCount(h', cpus);
    CellsMatchSize(After(h', cpus).entry.value, h', cpus);
    Extend(h', e, cpus);
    SinceCreatedAppend(h', e, IoctlHit);
    SinceCreatedAppend(h', e, UprobeHit);
    SincePolledAppend(h', e, kind, cpus);
    forall i: nat, u: nat | Counts(h, i, u, cpus)
      ensures Counts(h' + [e], if kind == IoctlHit then i + (n + 1) else i,
                     if kind == UprobeHit then u + (n + 1) else u, cpus)
    {
      CountOneMore(h', kind, if kind == IoctlHit then i + n else i, if kind == UprobeHit then u + n else u, cpus);
    }
  }

  lemma {:induction false} BurstCounts(h: seq<PidEvent>, n: nat, kind: HitKind, cpus: nat)
    requires cpus > 0 && Legal(h, cpus) && After(h, cpus).entry.Some?
    ensures Grown(h, Burst(h, n, kind), n, kind, cpus)
  {
    hide After, Legal, SinceCreated, CreatedBy, Reborn, Counts;
    if n > 0 {
      BurstCounts(h, n - 1, kind, cpus);
      GrowsByOne(h, Burst(h, n - 1, kind), n - 1, kind, cpus);
    }
  }

  lemma Birth(stamp: U64)
    requires stamp > 0
    ensures var h := [Created(0, stamp)];
            && Legal(h, 1) && After(h, 1).snapshot == None && After(h, 1).entry.Some?
            && CreatedBy(h) == Some(Creator(0, stamp)) && (forall k :: SinceCreated(h, k) == 0)
  {
    hide FreshCells;
    assert [Created(0, stamp)][..0] == [];
  }

  // An entry takes a ioctl and u uprobe hits and is polled.
  function Life(a: nat, u: nat): seq<PidEvent> {
    Burst(Burst([Created(0, 1)], a, IoctlHit), u, UprobeHit) + [Polled(2 * WARMUP_NS)]
  }

  lemma Storing(h: seq<PidEvent>, now: U64)
    requires Legal(h, 1) && Stores(After(h, 1), now)
    ensures var h' := h + [Polled(now)];
            && Legal(h', 1) && After(h', 1) == PidState(After(h, 1).entry, Some(Totals(After(h, 1).entry.value)))
            && !Reborn(h', 1) && Counts(h', 0, 0, 1) && CreatedBy(h') == CreatedBy(h)
            && forall k :: SinceCreated(h', k) == SinceCreated(h, k)
  {
    hide Totals, Qualifies;
    Extend(h, Polled(now), 1);
    assert (h + [Polled(now)])[..|h|] == h;
  }

  lemma LifeIsStored(a: nat, u: nat)
    requires 50 <= a < TWO_64 && u < TWO_64
    ensures var h := Life(a, u);
            && Legal(h, 1) && After(h, 1).entry.Some? && After(h, 1).snapshot == Some(Snapshot(a, u, 1))
            && !Reborn(h, 1) && Counts(h, 0, 0, 1) && CreatedBy(h) == Some(Creator(0, 1))
            && SinceCreated(h, IoctlHit) == a && SinceCreated(h, UprobeHit) == u
  {
    hide Legal, After, Burst, SinceCreated, SinceStored, Reborn, Totals, CreatedBy, Counts;
    Birth(1);
    var start := [Created(0, 1)];
    BurstCounts(start, a, IoctlHit, 1);
    var h := Burst(Burst(start, a, IoctlHit), u, UprobeHit);
    BurstCounts(Burst(start, a, IoctlHit), u, UprobeHit, 1);
    PolledTotals(h, 1);
    SmallWrap(a);
    SmallWrap(u);
    Storing(h, 2 * WARMUP_NS);
  }

  // One life: after a storing poll 60 ioctl hits and one library call without
  // ring space. The alert is wrong, although the entry is the same.
  lemma LostCallMisleadsThePoll()
    ensures var h, now := Burst(Life(60, 0), 60, IoctlHit) + [Lost(UprobeHit)], 4 * WARMUP_NS;
            && Legal(h, 1) && !Reborn(h, 1) && Alerts(After(h, 1), now) && RecordedBypass(h, 1)
            && NotedSince(h, Call, UprobeHit, 1) == 1 && !Bypassing(h, 1)
  {
    hide Legal, After, Life, Burst, SinceCreated, Reborn, Totals, Alerts, CreatedBy;
    LifeIsStored(60, 0);
    BurstCounts(Life(60, 0), 60, IoctlHit, 1);
    var h := Burst(Life(60, 0), 60, IoctlHit);
    assert Counts(h, 60, 0, 1);
    PolledTotals(h, 1);
    AlertsCompareTotals(h, 4 * WARMUP_NS, 1);
    Extend(h, Lost(UprobeHit), 1);
    SincePolledAppend(h, Lost(UprobeHit), UprobeHit, 1);
    OneLost(h);
  }

  lemma OneLost(h: seq<PidEvent>)
    requires Counts(h, 60, 0, 1)
    ensures SinceStored(h + [Lost(UprobeHit)], IoctlHit, 1) == 60
    ensures SinceStored(h + [Lost(UprobeHit)], UprobeHit, 1) == 0
    ensures NotedSince(h + [Lost(UprobeHit)], Call, UprobeHit, 1) == 1
  {
    assert (h + [Lost(UprobeHit)])[..|h|] == h;
  }

  // Two lives: m more uprobe hits come after the stored poll, and the entry's
  // successor takes b ioctl and v uprobe hits.
  function TwoLives(a: nat, u: nat, m: nat, b: nat, v: nat): seq<PidEvent> {
    var first := Burst(Life(a, u), m, UprobeHit);
    Burst(Burst(first + [Deleted] + [Created(0, 2 * WARMUP_NS)], b, IoctlHit), v, UprobeHit)
  }

  lemma Rebirth(h: seq<PidEvent>, stamp: U64, m: nat)
    requires stamp > 0 && Legal(h, 1) && After(h, 1).entry.Some? && Counts(h, 0, m, 1)
    ensures var h' := h + [Deleted] + [Created(0, stamp)];
            && Legal(h', 1) && Reborn(h', 1) && Counts(h', 0, m, 1)
            && After(h', 1).entry.Some? && After(h', 1).snapshot == After(h, 1).snapshot
            && (forall k :: SinceCreated(h', k) == 0) && CreatedBy(h') == Some(Creator(0, stamp))
  {
    hide Totals, FreshCells;
    var h1 := h + [Deleted];
    var h2 := h1 + [Created(0, stamp)];
    assert h1[..|h|] == h && h2[..|h1|] == h1;
    CountNoMore(h, Deleted, 0, m, 1);
    CountNoMore(h1, Created(0, stamp), 0, m, 1);
    hide After, Legal;
    Extend(h, Deleted, 1);
    Extend(h1, Created(0, stamp), 1);
  }

  lemma TwoLivesCount(a: nat, u: nat, m: nat, b: nat, v: nat)
    requires 50 <= a < TWO_64 && u < TWO_64 && b < TWO_64 && v < TWO_64
    ensures var h := TwoLives(a, u, m, b, v);
            && Legal(h, 1) && Reborn(h, 1) && Counts(h, b, m + v, 1)
            && After(h, 1).snapshot == Some(Snapshot(a, u, 1)) && After(h, 1).entry.Some?
            && Totals(After(h, 1).entry.value) == Snapshot(b, v, 2 * WARMUP_NS)
            && SinceCreated(h, IoctlHit) == b && SinceCreated(h, UprobeHit) == v
  {
    hide Legal, After, Burst, Life, SinceCreated, Reborn, Totals, CreatedBy, Counts;
    LifeIsStored(a, u);
    BurstCounts(Life(a, u), m, UprobeHit, 1);
    var first := Burst(Life(a, u), m, UprobeHit);
    assert Counts(first, 0, 0 + m, 1);
    Rebirth(first, 2 * WARMUP_NS, m);
    var second := first + [Deleted] + [Created(0, 2 * WARMUP_NS)];
    BurstCounts(second, b, IoctlHit, 1);
    assert Counts(Burst(second, b, IoctlHit), 0 + b, m, 1);
    BurstCounts(Burst(second, b, IoctlHit), v, UprobeHit, 1);
    PolledTotals(TwoLives(a, u, m, b, v), 1);
    SmallWrap(b);
    SmallWrap(v);
  }

  // A reused pid is alerted in spite of five library calls, and a reused pid
  // is not alerted in spite of 1000 ioctls without one.
  lemma ReuseMisleadsThePoll()
    ensures var h, now := TwoLives(60, 5, 0, 115, 5), 4 * WARMUP_NS;
            && Legal(h, 1) && Stores(After(h, 1), now)
            && Alerts(After(h, 1), now) && NotedSince(h, Call, UprobeHit, 1) == 5 && !Bypassing(h, 1)
    ensures var h, now := TwoLives(60, 7, 0, 1000, 0), 4 * WARMUP_NS;
            && Legal(h, 1) && Stores(After(h, 1), now)
            && !Alerts(After(h, 1), now) && Bypassing(h, 1)
  {
    hide Legal, After, TwoLives, SinceCreated, SinceStored, NotedSince, Reborn, Totals, Alerts;
    TwoLivesCount(60, 5, 0, 115, 5);
    TwoLivesCount(60, 7, 0, 1000, 0);
    AlertsCompareTotals(TwoLives(60, 5, 0, 115, 5), 4 * WARMUP_NS, 1);
    AlertsCompareTotals(TwoLives(60, 7, 0, 1000, 0), 4 * WARMUP_NS, 1);
  }

  // When the stamps differ and the old snapshot counted no uprobe hit, nothing
  // the poll holds decides: two histories with the same snapshot and totals are
  // both alerted, and only one of the processes bypassed the library.
  lemma OtherStampUndecided()
    ensures var h, h', now := TwoLives(60, 0, 0, 115, 0), TwoLives(60, 0, 5, 115, 0), 4 * WARMUP_NS;
            && Legal(h, 1) && Legal(h', 1) && After(h, 1).snapshot == After(h', 1).snapshot == Some(Snapshot(60, 0, 1))
            && After(h, 1).entry.Some? && After(h', 1).entry.Some?
            && Totals(After(h, 1).entry.value) == Totals(After(h', 1).entry.value) == Snapshot(115, 0, 2 * WARMUP_NS)
            && Alerts(After(h, 1), now) && Alerts(After(h', 1), now)
            && Bypassing(h, 1) && !Bypassing(h', 1)
  {
    hide Legal, After, TwoLives, SinceCreated, SinceStored, NotedSince, Reborn, Totals, Alerts;
    TwoLivesCount(60, 0, 0, 115, 0);
    TwoLivesCount(60, 0, 5, 115, 0);
    AlertsCompareTotals(TwoLives(60, 0, 0, 115, 0), 4 * WARMUP_NS, 1);
    AlertsCompareTotals(TwoLives(60, 0, 5, 115, 0), 4 * WARMUP_NS, 1);
  }

  // ---- exactness within a generation --------------------------------------------------

  lemma SmallWrap(n: nat)
    requires n < TWO_64
    ensures Wrap64(n) == n
  {
  }

  // The entry is old enough for a poll at this time.
  predicate Warm(h: seq<PidEvent>, now: U64) {
    CreatedBy(h).Some? && Sub64(now, CreatedBy(h).value.stamp) >= WARMUP_NS
  }

  // Polls go on without a break: since one stored a snapshot the entry has
  // neither been created nor deleted, and has been warm at every poll.
  ghost predicate Watched(h: seq<PidEvent>, cpus: nat) {
    h != [] && (
      var init, e := h[..|h| - 1], h[|h| - 1];
      || StoredLast(h, cpus)
      || (Watched(init, cpus) && (e.Hit? || e.Lost? || (e.Polled? && Warm(init, e.now)))))
  }

  // The same with the storing poll named; what came before it does not matter.
  ghost predicate StoresAt(h: seq<PidEvent>, i: nat, cpus: nat) {
    i < |h| && h[i].Polled? && Stores(After(h[..i], cpus), h[i].now)
  }

  ghost predicate Undisturbed(h: seq<PidEvent>, i: nat) {
    forall j :: i < j < |h| ==> !h[j].Created? && !h[j].Deleted?
  }

  lemma {:induction false} WatchedFrom(h: seq<PidEvent>, i: nat, cpus: nat)
    requires StoresAt(h, i, cpus) && Undisturbed(h, i)
    requires forall j :: i < j < |h| && h[j].Polled? ==> Warm(h[..i], h[j].now)
    ensures Watched(h, cpus) && CreatedBy(h) == CreatedBy(h[..i])
  {
    var init := h[..|h| - 1];
    if i == |h| - 1 {
      assert StoredLast(h, cpus);
    } else {
      assert init[..i] == h[..i];
      assert forall j :: 0 <= j < |init| ==> init[j] == h[j];
      WatchedFrom(init, i, cpus);
    }
  }

  // On one clock that never goes back the entry stays warm.
  lemma WatchedOnOneClock(h: seq<PidEvent>, i: nat, cpus: nat)
    requires StoresAt(h, i, cpus) && Legal(h[..i], cpus) && Undisturbed(h, i)
    requires CreatedBy(h[..i]).Some? ==> CreatedBy(h[..i]).value.stamp <= h[i].now
    requires forall j :: i < j < |h| && h[j].Polled? ==> h[i].now <= h[j].now
    ensures Watched(h, cpus)
  {
    hide Watched, Totals;
    PolledTotals(h[..i], cpus);
    forall j | i < j < |h| && h[j].Polled? ensures Warm(h[..i], h[j].now) {
    }
    WatchedFrom(h, i, cpus);
  }

  // Conversely, an entry with a snapshot of its own generation has such a poll.
  lemma {:induction false} OwnSnapshotWasStored(h: seq<PidEvent>, cpus: nat) returns (i: nat)
    requires Legal(h, cpus) && After(h, cpus).entry.Some? && After(h, cpus).snapshot.Some? && !Reborn(h, cpus)
    ensures StoresAt(h, i, cpus) && Undisturbed(h, i)
    ensures CreatedBy(h) == CreatedBy(h[..i])
  {
    i := |h| - 1;
    if !StoredLast(h, cpus) {
      var init := h[..i];
      i := OwnSnapshotWasStored(init, cpus);
      assert init[..i] == h[..i];
      assert forall j :: 0 <= j < |init| ==> init[j] == h[j];
    }
  }

  lemma SincePolledAppend(h: seq<PidEvent>, e: PidEvent, kind: HitKind, cpus: nat)
    requires e.Hit? || e.Lost?
    ensures SincePolled(h + [e], kind) == SincePolled(h, kind) + if IsHit(e, kind) then 1 else 0
    ensures SinceStored(h + [e], kind, cpus) == SinceStored(h, kind, cpus) + if IsHit(e, kind) then 1 else 0
    ensures Reborn(h + [e], cpus) == Reborn(h, cpus)
  {
    assert (h + [e])[..|h|] == h;
  }

  lemma JustStored(h: seq<PidEvent>, kind: HitKind, cpus: nat)
    requires h != [] && StoredLast(h, cpus)
    ensures SinceStored(h, kind, cpus) == SincePolled(h, kind) == 0 && !Reborn(h, cpus)
  {
  }

  // While it is watched, every poll of a process stores its totals.
  lemma {:induction false} EveryPollStores(h: seq<PidEvent>, cpus: nat)
    requires Legal(h, cpus) && Watched(h, cpus) && FewHits(h)
    ensures After(h, cpus).entry.Some? && After(h, cpus).snapshot.Some? && !Reborn(h, cpus)
    ensures forall kind :: SinceStored(h, kind, cpus) == SincePolled(h, kind)
    ensures SinceCreated(h, IoctlHit) >= 50
  {
    var init, e := h[..|h| - 1], h[|h| - 1];
    assert h == init + [e];
    hide SumOf, FirstSeen, Wrap64, Sub64, Reborn, SinceStored;
    if StoredLast(h, cpus) {
      PolledTotals(init, cpus);
      WrapAtMost(SinceCreated(init, IoctlHit));
      JustStored(h, IoctlHit, cpus);
      JustStored(h, UprobeHit, cpus);
    } else {
      EveryPollStores(init, cpus);
      if e.Polled? {
        PolledTotals(init, cpus);
        SmallWrap(SinceCreated(init, IoctlHit));
      } else {
        SincePolledAppend(init, e, IoctlHit, cpus);
        SincePolledAppend(init, e, UprobeHit, cpus);
      }
    }
  }

  // So its snapshot always holds the totals of the immediately preceding poll.
  lemma SnapshotIsCurrent(h: seq<PidEvent>, cpus: nat)
    requires Legal(h, cpus) && Watched(h, cpus) && FewHits(h)
    ensures CreatedBy(h).Some?
    ensures SincePolled(h, IoctlHit) <= SinceCreated(h, IoctlHit)
    ensures SincePolled(h, UprobeHit) <= SinceCreated(h, UprobeHit)
    ensures After(h, cpus).snapshot == Some(Snapshot(SinceCreated(h, IoctlHit) - SincePolled(h, IoctlHit),
                                                     SinceCreated(h, UprobeHit) - SincePolled(h, UprobeHit),
                                                     CreatedBy(h).value.stamp))
  {
    hide After, Legal, SinceCreated, SinceStored, SincePolled, Reborn, Watched, CreatedBy;
    EveryPollStores(h, cpus);
    SnapshotsMean(h, cpus);
  }

  // Watchdog exactness: from a storing poll on, whatever went before, each poll
  // alerts if and only if at least 50 ioctl hits and no uprobe hits were
  // recorded since the immediately preceding poll.
  lemma AlertsAreExact(h: seq<PidEvent>, now: U64, cpus: nat)
    requires Legal(h, cpus) && Watched(h, cpus) && FewHits(h) && Warm(h, now)
    ensures Alerts(After(h, cpus), now)
       <==> SincePolled(h, IoctlHit) >= 50 && SincePolled(h, UprobeHit) == 0
  {
    hide SumOf, FirstSeen, After, Legal, Totals, Watched, Alerts, CreatedBy;
    hide SinceCreated, SinceStored, SincePolled, Reborn;
    EveryPollStores(h, cpus);
    SnapshotsMean(h, cpus);
    PolledTotals(h, cpus);
    SmallWrap(SinceCreated(h, IoctlHit));
    SmallWrap(SincePolled(h, IoctlHit));
    SmallWrap(SincePolled(h, UprobeHit));
    AlertsIff(h, now, cpus);
  }

  // A process that bypasses the library between any two polls.
  ghost predicate Steady(h: seq<PidEvent>) {
    FewHits(h) && SincePolled(h, IoctlHit) >= 50 && SincePolled(h, UprobeHit) == 0
  }

  // Such a process is alerted at every poll after one that stored a snapshot.
  lemma SteadyBypassIsReported(h: seq<PidEvent>, i: nat, cpus: nat)
    requires Legal(h, cpus) && StoresAt(h, i, cpus) && Undisturbed(h, i)
    requires forall j :: i < j < |h| && h[j].Polled? ==> Warm(h[..i], h[j].now) && Steady(h[..j])
    ensures forall j :: i < j < |h| && h[j].Polled? ==> Alerts(After(h[..j], cpus), h[j].now)
  {
    forall j | i < j < |h| && h[j].Polled? ensures Alerts(After(h[..j], cpus), h[j].now) {
      hide Legal, After, Watched, FewHits, SincePolled;
      var p := h[..j];
      PrefixIsLegal(h, j, cpus);
      assert p[..i] == h[..i];
      assert forall k :: 0 <= k < |p| ==> p[k] == h[k];
      WatchedFrom(p, i, cpus);
      AlertsAreExact(p, h[j].now, cpus);
    }
  }

  lemma {:induction false} PrefixIsLegal(h: seq<PidEvent>, n: nat, cpus: nat)
    requires Legal(h, cpus) && n <= |h|
    ensures Legal(h[..n], cpus)
    decreases |h|
  {
    if n < |h| {
      PrefixIsLegal(h[..|h| - 1], n, cpus);
      assert h[..|h| - 1][..n] == h[..n];
    } else {
      assert h[..n] == h;
    }
  }

  // ---- how early an alert may come ------------------------------------------------------

  // Every poll's clock is at least offset ahead of the stamp of the entry it
  // reads: zero on one clock, the time of the last boot on the program's two.
  ghost predicate Ahead(h: seq<PidEvent>, offset: nat) {
    forall j :: 0 <= j < |h| && h[j].Polled? && CreatedBy(h[..j]).Some? ==>
      CreatedBy(h[..j]).value.stamp + offset <= h[j].now
  }

  // Polls on exact ticks.
  ghost predicate OnTicks(h: seq<PidEvent>) {
    forall i, j :: 0 <= i < j < |h| && h[i].Polled? && h[j].Polled? ==> h[i].now + POLL_INTERVAL_NS <= h[j].now
  }

  // A process whose snapshot is its own generation's is never alerted sooner
  // than one poll interval after its entry passed the warm-up, by the poll's
  // clock. The warm-up adds to it only where the clocks are less than three
  // seconds apart.
  lemma NeverAlertedEarly(h: seq<PidEvent>, now: U64, offset: nat, cpus: nat)
    requires Legal(h, cpus) && !Reborn(h, cpus) && Alerts(After(h, cpus), now)
    requires Ahead(h, offset) && OnTicks(h + [Polled(now)])
    ensures CreatedBy(h).Some?
    ensures now >= CreatedBy(h).value.stamp + 5_000_000_000 + if offset < 3_000_000_000 then 3_000_000_000 else offset
  {
    hide Legal, Reborn, Totals, CreatedBy, Undisturbed;
    AlertDeltas(After(h, cpus).snapshot, Totals(After(h, cpus).entry.value), now);
    var i := OwnSnapshotWasStored(h, cpus);
    PrefixIsLegal(h, i, cpus);
    hide After;
    PolledTotals(h[..i], cpus);
    var h' := h + [Polled(now)];
    assert h'[i] == h[i] && h'[|h|] == Polled(now);
  }
}
