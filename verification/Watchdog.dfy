// The watchdog's poll: sum each entry over the CPUs, compare with the last
// stored snapshot, and alert on ioctl activity without library calls.
module Watchdog {
  import opened Wrappers
  import opened Arith
  import opened Orders

  const WARMUP_NS: U64 := 3_000_000_000
  const POLL_INTERVAL_NS: int := 5_000_000_000
  const IOCTL_MIN_THRESHOLD: U64 := 50

  datatype HitKind = IoctlHit | UprobeHit

  // One CPU's slot of an entry.
  datatype Cell = Cell(ioctlHits: U64, uprobeHits: U64, firstSeen: U64) {
    function Hits(kind: HitKind): U64 {
      if kind == IoctlHit then ioctlHits else uprobeHits
    }

    function Bumped(kind: HitKind): Cell {
      match kind
      case IoctlHit => this.(ioctlHits := Add64(ioctlHits, 1))
      case UprobeHit => this.(uprobeHits := Add64(uprobeHits, 1))
    }
  }

  datatype Snapshot = Snapshot(ioctlCount: U64, uprobeCount: U64, firstSeenNs: U64)

  // ---- totals over the CPUs ---------------------------------------------------

  function SumOf(cells: seq<Cell>, kind: HitKind): nat {
    if cells == [] then 0 else SumOf(cells[..|cells| - 1], kind) + cells[|cells| - 1].Hits(kind)
  }

  // The smallest non-zero first-seen time, or zero.
  function FirstSeen(cells: seq<Cell>): U64 {
    if cells == [] then 0
    else
      var earlier, t := FirstSeen(cells[..|cells| - 1]), cells[|cells| - 1].firstSeen;
      if t > 0 && (earlier == 0 || t < earlier) then t else earlier
  }

  function Totals(cells: seq<Cell>): Snapshot {
    Snapshot(Wrap64(SumOf(cells, IoctlHit)), Wrap64(SumOf(cells, UprobeHit)), FirstSeen(cells))
  }

  lemma {:induction false} FirstSeenIsMinimum(cells: seq<Cell>)
    ensures FirstSeen(cells) == 0 <==> forall i :: 0 <= i < |cells| ==> cells[i].firstSeen == 0
    ensures FirstSeen(cells) > 0 ==> exists i :: 0 <= i < |cells| && cells[i].firstSeen == FirstSeen(cells)
    ensures forall i :: 0 <= i < |cells| && cells[i].firstSeen > 0 ==> FirstSeen(cells) <= cells[i].firstSeen
  {
    if cells != [] {
      var init := cells[..|cells| - 1];
      FirstSeenIsMinimum(init);
      assert forall i :: 0 <= i < |init| ==> init[i] == cells[i];
    }
  }

  lemma {:induction false} SumOfUpdate(cells: seq<Cell>, i: nat, c: Cell, kind: HitKind)
    requires i < |cells|
    ensures SumOf(cells[i := c], kind) == SumOf(cells, kind) - cells[i].Hits(kind) + c.Hits(kind)
  {
    var n := |cells| - 1;
    if i == n {
      assert cells[i := c][..n] == cells[..n];
    } else {
      SumOfUpdate(cells[..n], i, c, kind);
      assert cells[i := c][..n] == cells[..n][i := c];
    }
  }

  lemma {:induction false} FirstSeenUpdate(cells: seq<Cell>, i: nat, c: Cell)
    requires i < |cells| && c.firstSeen == cells[i].firstSeen
    ensures FirstSeen(cells[i := c]) == FirstSeen(cells)
  {
    var n := |cells| - 1;
    if i == n {
      assert cells[i := c][..n] == cells[..n];
    } else {
      FirstSeenUpdate(cells[..n], i, c);
      assert cells[i := c][..n] == cells[..n][i := c];
    }
  }

  // ---- one visit -----------------------------------------------------------------

  datatype Outcome = Outcome(snapshot: Option<Snapshot>, alert: bool)

  predicate Qualifies(total: Snapshot, now: U64) {
    total.ioctlCount >= IOCTL_MIN_THRESHOLD && Sub64(now, total.firstSeenNs) >= WARMUP_NS
  }

  function Visit(prev: Option<Snapshot>, total: Snapshot, now: U64): Outcome {
    if !Qualifies(total, now) then Outcome(prev, false)
    else if prev == None then Outcome(Some(total), false)
    else
      var deltaIoctl := Sub64(total.ioctlCount, prev.value.ioctlCount);
      var deltaUprobe := Sub64(total.uprobeCount, prev.value.uprobeCount);
      Outcome(Some(total), deltaIoctl >= IOCTL_MIN_THRESHOLD && deltaUprobe == 0)
  }

  // A poll stores an entry's totals if and only if they show at least 50 ioctl
  // hits and its first-seen time is at least three seconds back; it alerts if
  // and only if, in addition, there is a snapshot, the ioctl count has grown by
  // at least 50 modulo 2^64, and the uprobe count is the stored one.
  lemma VisitIff(prev: Option<Snapshot>, total: Snapshot, now: U64)
    ensures var o := Visit(prev, total, now);
            var stores := total.ioctlCount >= 50 && Sub64(now, total.firstSeenNs) >= 3_000_000_000;
            && o.snapshot == (if stores then Some(total) else prev)
            && (o.alert <==>
                  && stores && prev.Some?
                  && Sub64(total.ioctlCount, prev.value.ioctlCount) >= 50
                  && total.uprobeCount == prev.value.uprobeCount)
  {
  }

  // A visit never forgets a snapshot.
  lemma VisitKeeps(prev: Option<Snapshot>, total: Snapshot, now: U64)
    ensures prev.Some? ==> Visit(prev, total, now).snapshot.Some?
  {
  }

  function Lookup(snapshots: map<U32, Snapshot>, pid: U32): Option<Snapshot> {
    if pid in snapshots then Some(snapshots[pid]) else None
  }

  // The warm-up test holds an entry back exactly while it is less than three
  // seconds old, or when its stamp is within three seconds of wrapping past now.
  lemma WarmupSkipsIff(firstSeen: U64, now: U64)
    ensures Sub64(now, firstSeen) < 3_000_000_000
       <==> firstSeen <= now < firstSeen + 3_000_000_000 || now + TWO_64 < firstSeen + 3_000_000_000
  {
  }

  // An entry stamped after the poll read its clock passes the warm-up at once.
  lemma LateStampPassesWarmup(firstSeen: U64, now: U64)
    requires now < firstSeen <= now + TWO_64 - 3_000_000_000
    ensures Sub64(now, firstSeen) >= 3_000_000_000
  {
  }

  // The stamp counts from boot and the poll's clock from 1970: when the two
  // are at least three seconds apart, the warm-up test never holds.
  lemma WarmupIneffectiveAcrossClocks(firstSeen: U64, bootNow: U64, offset: nat)
    requires firstSeen <= bootNow && offset >= 3_000_000_000 && bootNow + offset < TWO_64
    ensures Sub64(bootNow + offset, firstSeen) >= 3_000_000_000
  {
  }

  // ---- the collector ---------------------------------------------------------------

  class WatchdogCollector {
    var snapshots: map<U32, Snapshot>

    constructor ()
      ensures snapshots == map[]
    {
      snapshots := map[];
    }

    method Tally(perCpuValues: seq<Cell>) returns (totalIoctl: U64, totalUprobe: U64, firstSeen: U64)
      ensures Snapshot(totalIoctl, totalUprobe, firstSeen) == Totals(perCpuValues)
    {
      totalIoctl, totalUprobe, firstSeen := 0, 0, 0;
      for i := 0 to |perCpuValues|
        invariant Snapshot(totalIoctl, totalUprobe, firstSeen) == Totals(perCpuValues[..i])
      {
        var v := perCpuValues[i];
        TotalsAppend(perCpuValues[..i], v);
        assert perCpuValues[..i + 1] == perCpuValues[..i] + [v];
        totalIoctl := Add64(totalIoctl, v.ioctlHits);
        totalUprobe := Add64(totalUprobe, v.uprobeHits);
        if v.firstSeen > 0 {
          if firstSeen == 0 || v.firstSeen < firstSeen {
            firstSeen := v.firstSeen;
          }
        }
      }
      assert perCpuValues[..|perCpuValues|] == perCpuValues;
    }

    // The body of the poll loop, for one entry.
    method VisitEntry(pid: U32, perCpuValues: seq<Cell>, nowNs: U64) returns (alert: bool)
      modifies this
      ensures var o := Visit(Lookup(old(snapshots), pid), Totals(perCpuValues), nowNs);
              && Lookup(snapshots, pid) == o.snapshot && alert == o.alert
              && snapshots - {pid} == old(snapshots) - {pid}
      ensures var t := Totals(perCpuValues);
              var stores := t.ioctlCount >= 50 && Sub64(nowNs, t.firstSeenNs) >= 3_000_000_000;
              && snapshots == (if stores then old(snapshots)[pid := t] else old(snapshots))
              && (alert <==>
                    && stores && pid in old(snapshots)
                    && Sub64(t.ioctlCount, old(snapshots)[pid].ioctlCount) >= 50
                    && t.uprobeCount == old(snapshots)[pid].uprobeCount)
    {
      var totalIoctl, totalUprobe, firstSeen := Tally(perCpuValues);
      if totalIoctl < IOCTL_MIN_THRESHOLD {
        return false;
      }
      var ageNs := Sub64(nowNs, firstSeen);
      if ageNs < WARMUP_NS {
        return false;
      }
      if pid !in snapshots {
        snapshots := snapshots[pid := Snapshot(totalIoctl, totalUprobe, firstSeen)];
        return false;
      }
      var prev := snapshots[pid];
      var deltaIoctl := Sub64(totalIoctl, prev.ioctlCount);
      var deltaUprobe := Sub64(totalUprobe, prev.uprobeCount);
      snapshots := snapshots[pid := Snapshot(totalIoctl, totalUprobe, firstSeen)];
      if deltaIoctl < IOCTL_MIN_THRESHOLD {
        return false;
      }
      return deltaUprobe == 0;
    }

    // Visits every entry once, in any order. Snapshots of processes without an
    // entry stay.
    method Poll(entries: map<U32, seq<Cell>>, nowNs: U64) returns (alerts: seq<U32>)
      modifies this
      ensures forall pid :: Lookup(snapshots, pid) ==
                if pid in entries then Visit(Lookup(old(snapshots), pid), Totals(entries[pid]), nowNs).snapshot
                else Lookup(old(snapshots), pid)
      ensures Listing(alerts, Alerted(entries, old(snapshots), nowNs))
      ensures forall pid :: pid in alerts <==>
                && pid in entries && pid in old(snapshots)
                && var t, s := Totals(entries[pid]), old(snapshots)[pid];
                   && t.ioctlCount >= 50 && Sub64(nowNs, t.firstSeenNs) >= 3_000_000_000
                   && Sub64(t.ioctlCount, s.ioctlCount) >= 50 && t.uprobeCount == s.uprobeCount
    {
      alerts := [];
      ghost var before := snapshots;
      ghost var seen: set<U32>, due: set<U32> := {}, {};
      var todo := entries.Keys;
      while todo != {}
        invariant todo == entries.Keys - seen && seen <= entries.Keys
        invariant forall pid :: pid !in seen ==> Lookup(snapshots, pid) == Lookup(before, pid)
        invariant forall pid :: pid in seen ==>
                    Lookup(snapshots, pid) == Visit(Lookup(before, pid), Totals(entries[pid]), nowNs).snapshot
        invariant due == seen * Alerted(entries, before, nowNs) && Listing(alerts, due)
        decreases todo
      {
        hide Visit, Totals, Listing;
        var pid :| pid in todo;
        todo := todo - {pid};
        ghost var earlier := snapshots;
        var alert := VisitEntry(pid, entries[pid], nowNs);
        OthersKept(earlier, snapshots, pid);
        seen := seen + {pid};
        if alert {
          ListingAppend(alerts, due, pid);
          alerts := alerts + [pid];
          due := due + {pid};
        }
      }
      assert due == Alerted(entries, before, nowNs);
      forall pid ensures pid in alerts <==> pid in Alerted(entries, before, nowNs) {
        ListingMember(alerts, due, pid);
      }
      forall pid | pid in entries {
        VisitIff(Lookup(before, pid), Totals(entries[pid]), nowNs);
      }
    }
  }

  lemma ListingMember(order: seq<U32>, pids: set<U32>, pid: U32)
    requires Listing(order, pids)
    ensures pid in order <==> pid in pids
  {
  }

  function Alerted(entries: map<U32, seq<Cell>>, snapshots: map<U32, Snapshot>, now: U64): set<U32> {
    set pid | pid in entries && Visit(Lookup(snapshots, pid), Totals(entries[pid]), now).alert
  }

  lemma OthersKept(a: map<U32, Snapshot>, b: map<U32, Snapshot>, pid: U32)
    requires a - {pid} == b - {pid}
    ensures forall q :: q != pid ==> Lookup(a, q) == Lookup(b, q)
  {
    forall q | q != pid ensures Lookup(a, q) == Lookup(b, q) {
      assert q in a <==> q in a - {pid};
      assert q in b <==> q in b - {pid};
    }
  }

  lemma TotalsAppend(cells: seq<Cell>, v: Cell)
    ensures Totals(cells + [v]) ==
              var t := Totals(cells);
              Snapshot(Add64(t.ioctlCount, v.ioctlHits), Add64(t.uprobeCount, v.uprobeHits),
                       if v.firstSeen > 0 && (t.firstSeenNs == 0 || v.firstSeen < t.firstSeenNs) then v.firstSeen
                       else t.firstSeenNs)
  {
    assert (cells + [v])[..|cells|] == cells;
    Add64Wrap(SumOf(cells, IoctlHit), v.ioctlHits);
    Add64Wrap(SumOf(cells, UprobeHit), v.uprobeHits);
  }
}
