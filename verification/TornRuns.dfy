// Cell-by-cell reads over whole runs of the watchdog: each cell is taken at a
// step of its own, with handlers, exits and other polls in between.
module TornRuns {
  import opened Wrappers
  import opened Arith
  import opened Watchdog
  import opened WatchdogKernel
  import opened WatchdogRuns
  import H = PidHistory
  import T = TornPolls

  // cells were taken from pid's entry, one CPU's at a time, between two steps.
  ghost predicate TornRead(w: World, run: seq<Action>, first: nat, last: nat, pid: U32, cells: seq<Cell>) {
    && first <= last <= |run| && |cells| == w.cpus
    && forall i :: 0 <= i < w.cpus ==> ReadAt(w, run, first, last, pid, cells[i], i)
  }

  ghost predicate ReadAt(w: World, run: seq<Action>, first: nat, last: nat, pid: U32, cell: Cell, i: nat)
    requires first <= last <= |run|
  {
    exists t :: first <= t <= last && T.HasCell(View(After(w, run[..t]), pid), i, cell)
  }

  // The hits recorded for pid between two steps.
  function HitsOver(w: World, run: seq<Action>, first: nat, last: nat, pid: U32, kind: HitKind): nat
    requires first <= last <= |run|
    decreases last
  {
    if first == last then 0
    else
      var es := Effect(After(w, run[..last - 1]), run[last - 1], pid);
      HitsOver(w, run, first, last - 1, pid, kind) + if es != [] && H.IsHit(es[0], kind) then 1 else 0
  }

  // pid's entry is neither created nor deleted between two steps.
  ghost predicate EntryStays(w: World, run: seq<Action>, first: nat, last: nat, pid: U32)
    requires last <= |run|
  {
    forall k :: first <= k < last ==> KeepsEntry(After(w, run[..k]), run[k], pid)
  }

  // ---- steps of the run and events of the history ---------------------------------

  // How many events the first k steps leave in pid's history.
  function Position(w: World, run: seq<Action>, k: nat, pid: U32): nat
    requires k <= |run|
  {
    |History(w, run[..k], pid)|
  }

  lemma HistoryOfPrefix(w: World, run: seq<Action>, k: nat, pid: U32)
    requires k < |run|
    ensures History(w, run[..k + 1], pid) == History(w, run[..k], pid) + Effect(After(w, run[..k]), run[k], pid)
  {
    assert run[..k + 1][..k] == run[..k];
  }

  lemma {:induction false} PrefixOfHistory(w: World, run: seq<Action>, k: nat, n: nat, pid: U32)
    requires k <= n <= |run|
    ensures Position(w, run, k, pid) <= Position(w, run, n, pid)
    ensures History(w, run[..k], pid) == History(w, run[..n], pid)[..Position(w, run, k, pid)]
    decreases n
  {
    hide History, Effect, After;
    if k < n {
      PrefixOfHistory(w, run, k, n - 1, pid);
      HistoryOfPrefix(w, run, n - 1, pid);
    }
  }

  lemma {:induction false} HistoryIsShort(w: World, run: seq<Action>, k: nat, pid: U32)
    requires k <= |run|
    ensures Position(w, run, k, pid) <= k
    decreases k
  {
    hide History, Effect, After;
    if k > 0 {
      HistoryIsShort(w, run, k - 1, pid);
      HistoryOfPrefix(w, run, k - 1, pid);
      AtMostOneEffect(After(w, run[..k - 1]), run[k - 1], pid);
    } else {
      NoHistoryYet(w, run, pid);
    }
  }

  lemma NoHistoryYet(w: World, run: seq<Action>, pid: U32)
    ensures History(w, run[..0], pid) == []
  {
  }

  lemma WholeHistory(w: World, run: seq<Action>, k: nat, pid: U32)
    requires k <= |run|
    ensures Position(w, run, k, pid) <= |History(w, run, pid)|
    ensures History(w, run, pid)[..Position(w, run, k, pid)] == History(w, run[..k], pid)
  {
    PrefixOfHistory(w, run, k, |run|, pid);
    assert run[..|run|] == run;
  }

  lemma {:induction false} HitsOverIsHitsIn(w: World, run: seq<Action>, first: nat, last: nat, pid: U32, kind: HitKind)
    requires first <= last <= |run|
    ensures Position(w, run, first, pid) <= Position(w, run, last, pid) <= |History(w, run, pid)|
    ensures HitsOver(w, run, first, last, pid, kind)
         == T.HitsIn(History(w, run, pid), Position(w, run, first, pid), Position(w, run, last, pid), kind)
    decreases last
  {
    hide History, Effect, After;
    WholeHistory(w, run, last, pid);
    if first < last {
      var h, es := History(w, run, pid), Effect(After(w, run[..last - 1]), run[last - 1], pid);
      HitsOverIsHitsIn(w, run, first, last - 1, pid, kind);
      WholeHistory(w, run, last - 1, pid);
      HistoryOfPrefix(w, run, last - 1, pid);
      AtMostOneEffect(After(w, run[..last - 1]), run[last - 1], pid);
      if es != [] {
        assert h[Position(w, run, last - 1, pid)] == es[0];
      }
    }
  }

  lemma {:induction false} StaysInHistory(w: World, run: seq<Action>, first: nat, last: nat, pid: U32)
    requires first <= last <= |run| && EntryStays(w, run, first, last, pid)
    ensures Position(w, run, last, pid) <= |History(w, run, pid)|
    ensures T.SameEntry(History(w, run, pid), Position(w, run, first, pid), Position(w, run, last, pid))
    decreases last
  {
    hide History, Effect, After;
    WholeHistory(w, run, last, pid);
    if first < last {
      var h, es := History(w, run, pid), Effect(After(w, run[..last - 1]), run[last - 1], pid);
      StaysInHistory(w, run, first, last - 1, pid);
      WholeHistory(w, run, last - 1, pid);
      HistoryOfPrefix(w, run, last - 1, pid);
      AtMostOneEffect(After(w, run[..last - 1]), run[last - 1], pid);
      assert KeepsEntry(After(w, run[..last - 1]), run[last - 1], pid);
      if es != [] {
        assert h[Position(w, run, last - 1, pid)] == es[0];
      }
    }
  }

  lemma StateAt(cpus: nat, start: U64, run: seq<Action>, t: nat, pid: U32)
    requires start > 0 && t <= |run|
    ensures var w, h := Init(cpus, start), History(Init(cpus, start), run, pid);
            && Position(w, run, t, pid) <= |h|
            && View(After(w, run[..t]), pid) == H.After(h[..Position(w, run, t, pid)], cpus)
  {
    hide History, After, View, H.After, H.Legal;
    WholeHistory(Init(cpus, start), run, t, pid);
    RunsFollowHistories(cpus, start, run[..t], pid);
  }

  lemma ReadOfHistory(cpus: nat, start: U64, run: seq<Action>, first: nat, last: nat, pid: U32, cells: seq<Cell>)
    requires start > 0 && TornRead(Init(cpus, start), run, first, last, pid, cells)
    ensures var w, h := Init(cpus, start), History(Init(cpus, start), run, pid);
            T.TornRead(h, Position(w, run, first, pid), Position(w, run, last, pid), cells, cpus)
  {
    hide History, After, View, H.After, T.HasCell;
    var w, h := Init(cpus, start), History(Init(cpus, start), run, pid);
    PrefixOfHistory(w, run, first, last, pid);
    WholeHistory(w, run, last, pid);
    forall i | 0 <= i < cpus
      ensures T.ReadAt(h, Position(w, run, first, pid), Position(w, run, last, pid), cells[i], i, cpus)
    {
      assert ReadAt(w, run, first, last, pid, cells[i], i);
      var t :| first <= t <= last && T.HasCell(View(After(w, run[..t]), pid), i, cells[i]);
      StateAt(cpus, start, run, t, pid);
      PrefixOfHistory(w, run, first, t, pid);
      PrefixOfHistory(w, run, t, last, pid);
    }
  }

  // ---- alerts -----------------------------------------------------------------------

  // Soundness over every run, deletions and rebirths between and within the two
  // reads included: if the second ioctl total is not below the stored one, or
  // the entry stays while the second read lasts, an alert means at least 50
  // ioctl hits from the start of the first read to the end of the second.
  lemma TornAlertsAreSound(cpus: nat, start: U64, run: seq<Action>, pid: U32, now: U64,
                           first: nat, last: nat, cells: seq<Cell>, first': nat, last': nat, cells': seq<Cell>)
    requires start > 0 && |run| < TWO_64 && last <= first'
    requires TornRead(Init(cpus, start), run, first, last, pid, cells)
    requires TornRead(Init(cpus, start), run, first', last', pid, cells')
    requires Visit(Some(Totals(cells)), Totals(cells'), now).alert
    requires || Totals(cells').ioctlCount >= Totals(cells).ioctlCount
             || EntryStays(Init(cpus, start), run, first', last', pid)
    ensures HitsOver(Init(cpus, start), run, first, last', pid, IoctlHit) >= 50
  {
    hide History, After, View, TornRead, EntryStays, Totals, Visit, H.After, H.Legal, T.TornRead;
    var w, h := Init(cpus, start), History(Init(cpus, start), run, pid);
    TwoReads(cpus, start, run, pid, first, last, cells, first', last', cells');
    HitsOverIsHitsIn(w, run, first, last', pid, IoctlHit);
    var p, q, p', q' := Position(w, run, first, pid), Position(w, run, last, pid),
                        Position(w, run, first', pid), Position(w, run, last', pid);
    if EntryStays(w, run, first', last', pid) {
      StaysInHistory(w, run, first', last', pid);
      T.SteadyReadsAreSound(h, p, q, cells, p', q', cells', now, cpus);
    } else {
      T.TornAlertsAreSound(h, p, q, cells, p', q', cells', now, cpus);
    }
  }

  lemma TwoReads(cpus: nat, start: U64, run: seq<Action>, pid: U32,
                 first: nat, last: nat, cells: seq<Cell>, first': nat, last': nat, cells': seq<Cell>)
    requires start > 0 && last <= first'
    requires TornRead(Init(cpus, start), run, first, last, pid, cells)
    requires TornRead(Init(cpus, start), run, first', last', pid, cells')
    ensures first <= last <= first' <= last' <= |run|
    ensures var w, h := Init(cpus, start), History(Init(cpus, start), run, pid);
            && H.Legal(h, cpus) && |h| <= |run|
            && T.TornRead(h, Position(w, run, first, pid), Position(w, run, last, pid), cells, cpus)
            && T.TornRead(h, Position(w, run, first', pid), Position(w, run, last', pid), cells', cpus)
            && Position(w, run, last, pid) <= Position(w, run, first', pid)
  {
    hide History, After, View, ReadAt, H.After, H.Legal, T.TornRead;
    var w := Init(cpus, start);
    ReadOfHistory(cpus, start, run, first, last, pid, cells);
    ReadOfHistory(cpus, start, run, first', last', pid, cells');
    PrefixOfHistory(w, run, last, first', pid);
    RunsFollowHistories(cpus, start, run, pid);
    HistoryIsShort(w, run, |run|, pid);
    assert run[..|run|] == run;
  }

  // Exactness: while the entry stays from the first read to the second, an alert
  // means 50 ioctl hits from the start of the first to the end of the second and
  // no uprobe hit between them, and a qualifying second read alerts if the same
  // holds with the spans exchanged.
  lemma TornAlerts(cpus: nat, start: U64, run: seq<Action>, pid: U32, now: U64,
                   first: nat, last: nat, cells: seq<Cell>, first': nat, last': nat, cells': seq<Cell>)
    requires start > 0 && |run| < TWO_64 && last <= first'
    requires TornRead(Init(cpus, start), run, first, last, pid, cells)
    requires TornRead(Init(cpus, start), run, first', last', pid, cells')
    requires EntryStays(Init(cpus, start), run, first, last', pid)
    requires View(After(Init(cpus, start), run[..first]), pid).entry.Some?
    ensures var w0 := Init(cpus, start);
            && (Visit(Some(Totals(cells)), Totals(cells'), now).alert ==>
                  && HitsOver(w0, run, first, last', pid, IoctlHit) >= 50
                  && HitsOver(w0, run, last, first', pid, UprobeHit) == 0)
            && (&& Qualifies(Totals(cells'), now)
                && HitsOver(w0, run, last, first', pid, IoctlHit) >= 50
                && HitsOver(w0, run, first, last', pid, UprobeHit) == 0
                ==> Visit(Some(Totals(cells)), Totals(cells'), now).alert)
  {
    hide History, After, View, TornRead, EntryStays, Totals, Visit, Qualifies, HitsOver;
    hide H.After, H.Legal, T.OneRead, T.TornRead, T.SameEntry, T.HitsIn;
    var w, h := Init(cpus, start), History(Init(cpus, start), run, pid);
    TwoReads(cpus, start, run, pid, first, last, cells, first', last', cells');
    StaysBetween(w, run, first, last', first, last, pid);
    StaysBetween(w, run, first, last', first, first', pid);
    StaysBetween(w, run, first, last', last, first', pid);
    StaysBetween(w, run, first, last', first', last', pid);
    EntryLives(cpus, start, run, first, first', pid);
    IsOneRead(cpus, start, run, pid, first, last, cells);
    IsOneRead(cpus, start, run, pid, first', last', cells');
    StaysInHistory(w, run, last, first', pid);
    HitsOverIsHitsIn(w, run, first, last', pid, IoctlHit);
    HitsOverIsHitsIn(w, run, first, last', pid, UprobeHit);
    HitsOverIsHitsIn(w, run, last, first', pid, IoctlHit);
    HitsOverIsHitsIn(w, run, last, first', pid, UprobeHit);
    T.TornAlerts(h, Position(w, run, first, pid), Position(w, run, last, pid), cells,
                 Position(w, run, first', pid), Position(w, run, last', pid), cells', now, cpus);
  }

  lemma StaysBetween(w: World, run: seq<Action>, a: nat, b: nat, first: nat, last: nat, pid: U32)
    requires a <= first <= last <= b <= |run| && EntryStays(w, run, a, b, pid)
    ensures EntryStays(w, run, first, last, pid)
  {
  }

  lemma {:induction false} EntryLives(cpus: nat, start: U64, run: seq<Action>, first: nat, last: nat, pid: U32)
    requires start > 0 && first <= last <= |run| && EntryStays(Init(cpus, start), run, first, last, pid)
    requires View(After(Init(cpus, start), run[..first]), pid).entry.Some?
    ensures View(After(Init(cpus, start), run[..last]), pid).entry.Some?
    decreases last
  {
    hide After, View, Effect, H.After, H.Legal;
    if first < last {
      var w0 := Init(cpus, start);
      EntryLives(cpus, start, run, first, last - 1, pid);
      assert run[..last][..last - 1] == run[..last - 1];
      RunsFollowHistories(cpus, start, run[..last - 1], pid);
      AfterLast(w0, run, last, pid);
      ViewStep(After(w0, run[..last - 1]), run[last - 1], pid);
      assert KeepsEntry(After(w0, run[..last - 1]), run[last - 1], pid);
    }
  }

  lemma AfterLast(w: World, run: seq<Action>, last: nat, pid: U32)
    requires 0 < last <= |run|
    ensures After(w, run[..last]) == Next(After(w, run[..last - 1]), run[last - 1])
  {
    assert run[..last][..last - 1] == run[..last - 1];
  }

  lemma IsOneRead(cpus: nat, start: U64, run: seq<Action>, pid: U32, first: nat, last: nat, cells: seq<Cell>)
    requires start > 0 && |run| < TWO_64 && TornRead(Init(cpus, start), run, first, last, pid, cells)
    requires EntryStays(Init(cpus, start), run, first, last, pid)
    requires View(After(Init(cpus, start), run[..first]), pid).entry.Some?
    ensures var w, h := Init(cpus, start), History(Init(cpus, start), run, pid);
            T.OneRead(h, Position(w, run, first, pid), Position(w, run, last, pid), cells, cpus)
  {
    hide History, After, View, ReadAt, EntryStays, H.After, H.Legal, T.TornRead, T.SameEntry;
    var w, h := Init(cpus, start), History(Init(cpus, start), run, pid);
    ReadOfHistory(cpus, start, run, first, last, pid, cells);
    StaysInHistory(w, run, first, last, pid);
    RunsFollowHistories(cpus, start, run, pid);
    EntryLives(cpus, start, run, first, last, pid);
    StateAt(cpus, start, run, last, pid);
    HistoryIsShort(w, run, last, pid);
    T.HitsAreFew(h[..Position(w, run, last, pid)]);
  }
}
