// The watchdog's shared map under every interleaving: handlers on any CPUs,
// each lookup, creation and counter bump a step of its own, thread exits
// deleting entries, and polls visiting them.
//
// Assumed of the kernel's per-CPU hash: creating an element writes the
// creator's cell and zeroes the others; deleted elements may be reused for
// another key while a handler still points into them; a poll reads one
// entry's cells at once, which TornRuns does without.
module WatchdogKernel {
  import opened Wrappers
  import opened Arith
  import opened Watchdog
  import opened Orders
  import H = PidHistory

  const MAX_ENTRIES: nat := 1024

  // An element remembers the key it was last created for.
  datatype Element = Element(key: U32, cells: seq<Cell>)

  // Where a handler is inside add_to_counter.
  datatype Pc =
    | Looking
    | Creating(stamp: U64)
    | LookingAgain
    | Bumping(elem: nat)
    | Counted
    | Missed

  datatype Task = Task(cpu: nat, pid: U32, kind: HitKind, pc: Pc)

  datatype World = World(
    cpus: nat,
    now: U64,
    table: map<U32, nat>,
    elems: map<nat, Element>,
    tasks: map<nat, Task>,
    snapshots: map<U32, Snapshot>)

  // A library handler without ring space, or a synchronisation return without a
  // stored start, never reaches add_to_counter: it starts with reserved false.
  // The ioctl handler reserves nothing.
  datatype Action =
    | Wait(dt: nat)
    | Start(id: nat, cpu: nat, pid: U32, kind: HitKind, reserved: bool)
    | Run(id: nat, slot: nat)
    | Exit(pid: U32)
    | Poll(pid: U32, now: U64)

  function Init(cpus: nat, now: U64): World {
    World(cpus, now, map[], map[], map[], map[])
  }

  // The handler fires, and whether it goes on to count.
  predicate Fires(w: World, a: Action) {
    a.Start? && a.id !in w.tasks && a.cpu < w.cpus
  }

  predicate Reaches(a: Action) {
    a.Start? && (a.kind == IoctlHit || a.reserved)
  }

  // A handler may create pid's element in the free element slot.
  predicate Creates(w: World, t: Task, slot: nat) {
    t.pc.Creating? && t.pid !in w.table && |w.table| < MAX_ENTRIES && slot !in w.table.Values
  }

  function Bump(e: Element, cpu: nat, kind: HitKind): Element {
    if cpu < |e.cells| then e.(cells := e.cells[cpu := e.cells[cpu].Bumped(kind)]) else e
  }

  function Found(w: World, t: Task, otherwise: Pc): Task {
    t.(pc := if t.pid in w.table then Bumping(w.table[t.pid]) else otherwise)
  }

  // One step of the handler id; a creation that finds no free element waits
  // for another choice of slot.
  function RunTask(w: World, id: nat, slot: nat): World
    requires id in w.tasks
  {
    var t := w.tasks[id];
    match t.pc
    case Looking => w.(tasks := w.tasks[id := Found(w, t, Creating(w.now))])
    case Creating(stamp) =>
      if Creates(w, t, slot) then
        w.(elems := w.elems[slot := Element(t.pid, H.FreshCells(w.cpus, t.cpu, stamp))],
           table := w.table[t.pid := slot],
           tasks := w.tasks[id := t.(pc := LookingAgain)])
      else if t.pid in w.table || |w.table| >= MAX_ENTRIES then
        w.(tasks := w.tasks[id := t.(pc := LookingAgain)])
      else w
    case LookingAgain => w.(tasks := w.tasks[id := Found(w, t, Missed)])
    case Bumping(e) =>
      var w' := w.(tasks := w.tasks[id := t.(pc := Counted)]);
      if e in w.elems then w'.(elems := w.elems[e := Bump(w.elems[e], t.cpu, t.kind)]) else w'
    case Counted => w
    case Missed => w
  }

  // Actions that cannot happen leave the world unchanged.
  function Next(w: World, a: Action): World {
    match a
    case Wait(dt) => if w.now + dt < TWO_64 then w.(now := w.now + dt) else w
    case Start(id, cpu, pid, kind, _) =>
      if Fires(w, a) && Reaches(a) then w.(tasks := w.tasks[id := Task(cpu, pid, kind, Looking)]) else w
    case Run(id, slot) => if id in w.tasks then RunTask(w, id, slot) else w
    case Exit(pid) => w.(table := w.table - {pid})
    case Poll(pid, now) =>
      if pid in w.table && w.table[pid] in w.elems then
        var o := Visit(Lookup(w.snapshots, pid), Totals(w.elems[w.table[pid]].cells), now);
        w.(snapshots := if o.snapshot.Some? then w.snapshots[pid := o.snapshot.value] else w.snapshots)
      else w
  }

  function After(w: World, run: seq<Action>): World {
    if run == [] then w else Next(After(w, run[..|run| - 1]), run[|run| - 1])
  }

  // ---- one process's view of a run -------------------------------------------------

  // The element is pid's entry, not a leftover.
  predicate Owns(w: World, pid: U32, e: nat) {
    pid in w.table && w.table[pid] == e
  }

  // What an action does to pid's entry. A call of its own that finds neither an
  // entry nor room, or whose element has become another's or nobody's, is lost.
  function Effect(w: World, a: Action, pid: U32): seq<H.PidEvent> {
    match a
    case Run(id, slot) =>
      if id !in w.tasks then []
      else
        var t := w.tasks[id];
        if Creates(w, t, slot) && t.pid == pid then [H.Created(t.cpu, t.pc.stamp)]
        else if t.pc.Bumping? && Owns(w, pid, t.pc.elem) then [H.Hit(t.cpu, t.kind, t.pid == pid)]
        else if t.pid == pid && (t.pc.Bumping? || (t.pc.LookingAgain? && pid !in w.table)) then [H.Lost(t.kind)]
        else []
    case Start(_, _, p, kind, _) => if Fires(w, a) && !Reaches(a) && p == pid then [H.Lost(kind)] else []
    case Exit(p) => if p == pid && pid in w.table then [H.Deleted] else []
    case Poll(p, now) => if p == pid && pid in w.table then [H.Polled(now)] else []
    case _ => []
  }

  function History(w: World, run: seq<Action>, pid: U32): seq<H.PidEvent> {
    if run == [] then []
    else
      var init := run[..|run| - 1];
      History(w, init, pid) + Effect(After(w, init), run[|run| - 1], pid)
  }

  function View(w: World, pid: U32): H.PidState {
    H.PidState(if pid in w.table && w.table[pid] in w.elems then Some(w.elems[w.table[pid]].cells) else None,
               Lookup(w.snapshots, pid))
  }

  // ---- the map stays consistent -----------------------------------------------------

  // Every entry points to an element created for its key, with a cell for each
  // CPU.
  ghost predicate EntriesOk(cpus: nat, table: map<U32, nat>, elems: map<nat, Element>) {
    && |table| <= MAX_ENTRIES
    && (forall p :: p in table ==> table[p] in elems && elems[table[p]].key == p)
    && forall e :: e in elems ==> |elems[e].cells| == cpus
  }

  // Every handler runs on an existing CPU and points to an element.
  ghost predicate TaskOk(cpus: nat, elems: map<nat, Element>, t: Task) {
    && t.cpu < cpus
    && (t.pc.Creating? ==> t.pc.stamp > 0)
    && (t.pc.Bumping? ==> t.pc.elem in elems)
  }

  ghost predicate Consistent(w: World) {
    && w.now > 0
    && EntriesOk(w.cpus, w.table, w.elems)
    && forall id :: id in w.tasks ==> TaskOk(w.cpus, w.elems, w.tasks[id])
  }

  lemma ConsistentStep(w: World, a: Action)
    requires Consistent(w)
    ensures Consistent(Next(w, a))
  {
    hide RunTask, EntriesOk, Visit, Totals;
    match a
    case Run(id, slot) => if id in w.tasks { ConsistentRun(w, id, slot); }
    case Exit(pid) => ExitKeepsEntries(w.cpus, w.table, w.elems, pid);
    case _ =>
  }

  lemma ExitKeepsEntries(cpus: nat, table: map<U32, nat>, elems: map<nat, Element>, pid: U32)
    requires EntriesOk(cpus, table, elems)
    ensures EntriesOk(cpus, table - {pid}, elems)
  {
    assert (table - {pid}).Keys == table.Keys - {pid};
    assert |(table - {pid}).Keys| <= |table.Keys|;
  }

  lemma ConsistentRun(w: World, id: nat, slot: nat)
    requires Consistent(w) && id in w.tasks
    ensures Consistent(RunTask(w, id, slot))
  {
    hide EntriesOk, Bump, H.FreshCells;
    var t := w.tasks[id];
    if Creates(w, t, slot) {
      CreationKeepsEntries(w.cpus, w.table, w.elems, t.pid, slot, H.FreshCells(w.cpus, t.cpu, t.pc.stamp));
    } else if t.pc.Bumping? {
      BumpKeepsEntries(w.cpus, w.table, w.elems, t.pc.elem, t);
    } else if t.pid in w.table {
      EntryHasElement(w.cpus, w.table, w.elems, t.pid);
    }
  }

  lemma CreationKeepsEntries(cpus: nat, table: map<U32, nat>, elems: map<nat, Element>,
                             pid: U32, slot: nat, cells: seq<Cell>)
    requires EntriesOk(cpus, table, elems) && |cells| == cpus
    requires pid !in table && |table| < MAX_ENTRIES && slot !in table.Values
    ensures EntriesOk(cpus, table[pid := slot], elems[slot := Element(pid, cells)])
  {
    TableSize(table, pid, slot);
    forall p | p in table ensures table[p] != slot {
      assert table[p] in table.Values;
    }
  }

  lemma BumpKeepsEntries(cpus: nat, table: map<U32, nat>, elems: map<nat, Element>, e: nat, t: Task)
    requires EntriesOk(cpus, table, elems) && e in elems
    ensures EntriesOk(cpus, table, elems[e := Bump(elems[e], t.cpu, t.kind)])
  {
  }

  lemma EntryHasElement(cpus: nat, table: map<U32, nat>, elems: map<nat, Element>, pid: U32)
    requires EntriesOk(cpus, table, elems) && pid in table
    ensures table[pid] in elems
  {
  }

  lemma TableSize(table: map<U32, nat>, pid: U32, slot: nat)
    requires pid !in table
    ensures table[pid := slot].Keys == table.Keys + {pid} && |table[pid := slot]| == |table| + 1
  {
    assert table[pid := slot].Keys == table.Keys + {pid};
    assert |table[pid := slot]| == |table[pid := slot].Keys|;
  }

  lemma ViewStep(w: World, a: Action, pid: U32)
    requires Consistent(w)
    ensures var es := Effect(w, a, pid);
            if es == [] then View(Next(w, a), pid) == View(w, pid)
            else |es| == 1 && H.Applies(View(w, pid), es[0], w.cpus)
                 && View(Next(w, a), pid) == H.Next(View(w, pid), es[0], w.cpus)
  {
    hide Totals, Visit, H.FreshCells;
    match a
    case Run(id, slot) => if id in w.tasks { ViewRun(w, id, slot, pid); }
    case Poll(p, now) =>
      if p in w.table { VisitKeeps(Lookup(w.snapshots, p), Totals(w.elems[w.table[p]].cells), now); }
    case _ =>
  }

  // A thread's exit deletes its process's entry and no other.
  lemma ExitDeletes(w: World, pid: U32, q: U32)
    requires Consistent(w)
    ensures View(Next(w, Exit(pid)), pid) == View(w, pid).(entry := None)
    ensures q != pid ==> View(Next(w, Exit(pid)), q) == View(w, q)
    ensures Next(w, Exit(pid)).tasks == w.tasks
  {
    hide EntriesOk, TaskOk;
  }

  // A poll leaves a process with the snapshot its visit stores and changes
  // nothing else.
  lemma PollVisits(w: World, pid: U32, q: U32, now: U64)
    requires Consistent(w)
    ensures q != pid ==> View(Next(w, Poll(pid, now)), q) == View(w, q)
    ensures var v := View(w, pid);
            View(Next(w, Poll(pid, now)), pid) ==
              if v.entry.Some? then v.(snapshot := Visit(v.snapshot, Totals(v.entry.value), now).snapshot) else v
    ensures Next(w, Poll(pid, now)).tasks == w.tasks
  {
    hide EntriesOk, TaskOk, Totals, Visit;
    if pid in w.table && w.table[pid] in w.elems {
      VisitKeeps(Lookup(w.snapshots, pid), Totals(w.elems[w.table[pid]].cells), now);
    }
  }

  lemma ViewRun(w: World, id: nat, slot: nat, pid: U32)
    requires Consistent(w) && id in w.tasks
    ensures var es := Effect(w, Run(id, slot), pid);
            if es == [] then View(RunTask(w, id, slot), pid) == View(w, pid)
            else |es| == 1 && H.Applies(View(w, pid), es[0], w.cpus)
                 && View(RunTask(w, id, slot), pid) == H.Next(View(w, pid), es[0], w.cpus)
  {
    hide Totals, Visit, H.FreshCells;
    var t := w.tasks[id];
    if pid in w.table {
      assert w.table[pid] in w.table.Values;
    }
  }

  lemma CpusConstant(w: World, a: Action)
    ensures Next(w, a).cpus == w.cpus
  {
  }

  lemma HistoryAppend(h: seq<H.PidEvent>, es: seq<H.PidEvent>, cpus: nat)
    requires |es| == 1 && H.Legal(h, cpus) && H.Applies(H.After(h, cpus), es[0], cpus)
    ensures H.Legal(h + es, cpus) && H.After(h + es, cpus) == H.Next(H.After(h, cpus), es[0], cpus)
  {
    assert es == [es[0]];
    H.Extend(h, es[0], cpus);
  }

  // Refinement: in every run, what has become of a process's entry and
  // snapshot is exactly what its own history of events says.
  lemma {:induction false} RunsFollowHistories(cpus: nat, now: U64, run: seq<Action>, pid: U32)
    requires now > 0
    ensures var w, h := After(Init(cpus, now), run), History(Init(cpus, now), run, pid);
            Consistent(w) && w.cpus == cpus && H.Legal(h, cpus) && View(w, pid) == H.After(h, cpus)
  {
    if run != [] {
      var init, a := run[..|run| - 1], run[|run| - 1];
      RunsFollowHistories(cpus, now, init, pid);
      var w, h := After(Init(cpus, now), init), History(Init(cpus, now), init, pid);
      hide Consistent, View, Next, Effect, H.Next, H.After, H.Legal, H.Applies;
      ConsistentStep(w, a);
      CpusConstant(w, a);
      ViewStep(w, a, pid);
      var es := Effect(w, a, pid);
      if es == [] {
        assert h + [] == h;
      } else {
        HistoryAppend(h, es, cpus);
      }
    }
  }

  // An alert is raised by polling pid now.
  predicate AlertsAt(w: World, pid: U32, now: U64) {
    H.Alerts(View(w, pid), now)
  }

  // Alert soundness over whole runs: with any interleaving of handlers,
  // deletions and pid reuse, an alert means at least 50 ioctl hits were
  // recorded in the process's entry after its last stored snapshot.
  lemma AlertSoundness(cpus: nat, start: U64, run: seq<Action>, pid: U32, now: U64)
    requires start > 0 && AlertsAt(After(Init(cpus, start), run), pid, now)
    ensures H.SinceStored(History(Init(cpus, start), run, pid), IoctlHit, cpus) >= 50
  {
    hide After, History, View, H.After, H.Alerts, H.Legal;
    RunsFollowHistories(cpus, start, run, pid);
    H.AlertsAreSound(History(Init(cpus, start), run, pid), now, cpus);
  }

  // What such an alert is worth, over whole runs with deletions and pid reuse,
  // by what the poll holds. Creation stamps being distinct: if the snapshot has
  // the entry's stamp, the process bypassed the library unless it lost a library
  // call; if it has another and a uprobe count above the stray hits since, the
  // process did not.
  lemma AlertTruth(cpus: nat, start: U64, run: seq<Action>, pid: U32, now: U64)
    requires start > 0 && AlertsAt(After(Init(cpus, start), run), pid, now)
    requires var h := History(Init(cpus, start), run, pid);
             H.FewHits(h) && H.DistinctStamps(h)
    ensures var v, h := View(After(Init(cpus, start), run), pid), History(Init(cpus, start), run, pid);
            && v.snapshot.Some?
            && var s, total := v.snapshot.value, Totals(v.entry.value);
               && (s.firstSeenNs == total.firstSeenNs ==>
                     && H.RecordedBypass(h, cpus)
                     && (H.NotedSince(h, H.Stray, IoctlHit, cpus) == 0 ==>
                           (H.Bypassing(h, cpus) <==> H.NotedSince(h, H.LostCall, UprobeHit, cpus) == 0)))
               && (s.firstSeenNs != total.firstSeenNs && s.uprobeCount > H.NotedSince(h, H.Stray, UprobeHit, cpus) ==>
                     !H.Bypassing(h, cpus))
  {
    hide After, History, View, Visit, Totals;
    hide H.After, H.Legal, H.FewHits, H.DistinctStamps, H.RecordedBypass, H.Bypassing, H.NotedSince;
    RunsFollowHistories(cpus, start, run, pid);
    var h := History(Init(cpus, start), run, pid);
    H.AlertDeltas(H.After(h, cpus).snapshot, Totals(H.After(h, cpus).entry.value), now);
    var s, total := H.After(h, cpus).snapshot.value, Totals(H.After(h, cpus).entry.value);
    if s.firstSeenNs == total.firstSeenNs {
      H.SameStampAlert(h, now, cpus);
    } else if s.uprobeCount > H.NotedSince(h, H.Stray, UprobeHit, cpus) {
      H.OtherStampAlert(h, now, cpus);
    }
  }

  // The same against the record, without a word about stamps, and which recorded
  // bypasses go unreported.
  lemma RecordTruth(cpus: nat, start: U64, run: seq<Action>, pid: U32, now: U64)
    requires start > 0 && H.FewHits(History(Init(cpus, start), run, pid))
    ensures var w, h := After(Init(cpus, start), run), History(Init(cpus, start), run, pid);
            AlertsAt(w, pid, now) ==>
              && View(w, pid).snapshot.Some?
              && (H.RecordedBypass(h, cpus) <==>
                    || !H.Reborn(h, cpus)
                    || (View(w, pid).snapshot.value.uprobeCount == 0
                        && H.SinceStored(h, UprobeHit, cpus) == H.SinceCreated(h, UprobeHit)))
    ensures var w, h := After(Init(cpus, start), run), History(Init(cpus, start), run, pid);
            H.Stores(View(w, pid), now) && View(w, pid).snapshot.Some? && H.RecordedBypass(h, cpus) ==>
              var s, total := View(w, pid).snapshot.value, H.SinceCreated(h, IoctlHit);
              AlertsAt(w, pid, now) <==>
                || !H.Reborn(h, cpus)
                || (s.uprobeCount == 0 && !(s.ioctlCount <= total < s.ioctlCount + 50))
  {
    hide After, History, View, H.After, H.Alerts, H.Stores, H.Legal, H.FewHits, H.RecordedBypass, H.Reborn;
    RunsFollowHistories(cpus, start, run, pid);
    var w, h := After(Init(cpus, start), run), History(Init(cpus, start), run, pid);
    if AlertsAt(w, pid, now) {
      H.AlertMatchesRecordIff(h, now, cpus);
    }
    if H.Stores(View(w, pid), now) && View(w, pid).snapshot.Some? && H.RecordedBypass(h, cpus) {
      H.BypassIsAlertedIff(h, now, cpus);
    }
  }

  // Step i of the run is a poll that stores pid's totals.
  ghost predicate StoresAt(w: World, run: seq<Action>, i: nat, pid: U32) {
    && i < |run| && run[i].Poll? && run[i].pid == pid
    && H.Stores(View(After(w, run[..i]), pid), run[i].now)
  }

  // After step i pid's entry is neither created nor deleted, and warm at every
  // poll.
  ghost predicate Undisturbed(w: World, run: seq<Action>, i: nat, pid: U32) {
    forall k :: i < k < |run| ==> Harmless(w, run, k, pid)
  }

  ghost predicate Harmless(w: World, run: seq<Action>, k: nat, pid: U32)
    requires k < |run|
  {
    GoesOn(History(w, run[..k], pid), Effect(After(w, run[..k]), run[k], pid))
  }

  predicate GoesOn(h: seq<H.PidEvent>, es: seq<H.PidEvent>) {
    es == [] || es[0].Hit? || es[0].Lost? || (es[0].Polled? && H.Warm(h, es[0].now))
  }

  lemma HarmlessInit(w: World, run: seq<Action>, k: nat, n: nat, pid: U32)
    requires k < n <= |run|
    ensures Harmless(w, run[..n], k, pid) == Harmless(w, run, k, pid)
  {
    assert run[..n][..k] == run[..k];
  }

  lemma {:induction false} RunIsWatched(cpus: nat, start: U64, run: seq<Action>, i: nat, pid: U32)
    requires start > 0 && StoresAt(Init(cpus, start), run, i, pid) && Undisturbed(Init(cpus, start), run, i, pid)
    ensures H.Watched(History(Init(cpus, start), run, pid), cpus)
  {
    hide After, View, Harmless, History, H.Stores, H.Watched;
    if i == |run| - 1 {
      StoringPollBegins(cpus, start, run, pid);
    } else {
      var w0, init := Init(cpus, start), run[..|run| - 1];
      UndisturbedInit(w0, run, i, pid);
      RunIsWatched(cpus, start, init, i, pid);
      HarmlessStepGoesOn(w0, run, cpus, pid);
    }
  }

  lemma UndisturbedInit(w: World, run: seq<Action>, i: nat, pid: U32)
    requires StoresAt(w, run, i, pid) && Undisturbed(w, run, i, pid) && i < |run| - 1
    ensures StoresAt(w, run[..|run| - 1], i, pid) && Undisturbed(w, run[..|run| - 1], i, pid)
  {
    hide After, View, H.Stores, Harmless;
    var init := run[..|run| - 1];
    assert init[..i] == run[..i];
    forall k | i < k < |init| ensures Harmless(w, init, k, pid) {
      HarmlessInit(w, run, k, |init|, pid);
    }
  }

  lemma StoringPollBegins(cpus: nat, start: U64, run: seq<Action>, pid: U32)
    requires start > 0 && run != [] && StoresAt(Init(cpus, start), run, |run| - 1, pid)
    ensures H.Watched(History(Init(cpus, start), run, pid), cpus)
  {
    var w0, init, a := Init(cpus, start), run[..|run| - 1], run[|run| - 1];
    hide Consistent, After, View, Effect, H.Stores, H.After, H.Legal, H.Watched;
    RunsFollowHistories(cpus, start, init, pid);
    PollIsRecorded(After(w0, init), a, pid);
    WatchBegins(History(w0, init, pid), a.now, cpus);
  }

  lemma HarmlessStepGoesOn(w: World, run: seq<Action>, cpus: nat, pid: U32)
    requires run != [] && Harmless(w, run, |run| - 1, pid) && H.Watched(History(w, run[..|run| - 1], pid), cpus)
    ensures H.Watched(History(w, run, pid), cpus)
  {
    var init, a := run[..|run| - 1], run[|run| - 1];
    hide After, Effect, GoesOn, H.Watched;
    AtMostOneEffect(After(w, init), a, pid);
    WatchGoesOn(History(w, init, pid), Effect(After(w, init), a, pid), cpus);
  }

  lemma WatchBegins(h: seq<H.PidEvent>, now: U64, cpus: nat)
    requires H.Stores(H.After(h, cpus), now)
    ensures H.Watched(h + [H.Polled(now)], cpus)
  {
    assert (h + [H.Polled(now)])[..|h|] == h;
  }

  lemma WatchGoesOn(h: seq<H.PidEvent>, es: seq<H.PidEvent>, cpus: nat)
    requires H.Watched(h, cpus) && |es| <= 1 && GoesOn(h, es)
    ensures H.Watched(h + es, cpus)
  {
    if es == [] {
      assert h + es == h;
    } else {
      assert (h + es)[..|h|] == h && (h + es)[|h|] == es[0];
    }
  }

  lemma PollIsRecorded(w: World, a: Action, pid: U32)
    requires a.Poll? && a.pid == pid && View(w, pid).entry.Some?
    ensures Effect(w, a, pid) == [H.Polled(a.now)]
  {
  }

  lemma AtMostOneEffect(w: World, a: Action, pid: U32)
    ensures |Effect(w, a, pid)| <= 1
  {
  }

  // Exactness over whole runs: from a storing poll on, with deletions before
  // but none since, a warm poll alerts if and only if at least 50 ioctl hits
  // and no uprobe hits came since the process's previous poll.
  lemma AlertExactness(cpus: nat, start: U64, run: seq<Action>, i: nat, pid: U32, now: U64)
    requires start > 0 && StoresAt(Init(cpus, start), run, i, pid) && Undisturbed(Init(cpus, start), run, i, pid)
    requires H.FewHits(History(Init(cpus, start), run, pid)) && H.Warm(History(Init(cpus, start), run, pid), now)
    ensures var w, h := After(Init(cpus, start), run), History(Init(cpus, start), run, pid);
            AlertsAt(w, pid, now) <==>
              H.SincePolled(h, IoctlHit) >= 50 && H.SincePolled(h, UprobeHit) == 0
  {
    hide After, History, View, Undisturbed, StoresAt;
    hide H.After, H.Alerts, H.Legal, H.Watched, H.SincePolled, H.FewHits, H.Warm;
    RunsFollowHistories(cpus, start, run, pid);
    RunIsWatched(cpus, start, run, i, pid);
    H.AlertsAreExact(History(Init(cpus, start), run, pid), now, cpus);
  }

  // Hence a process that bypasses the library steadily is alerted at every poll
  // after one that stored a snapshot, however the handlers interleave.
  lemma SteadyBypassIsAlerted(cpus: nat, start: U64, run: seq<Action>, i: nat, pid: U32)
    requires start > 0 && StoresAt(Init(cpus, start), run, i, pid) && Undisturbed(Init(cpus, start), run, i, pid)
    requires forall k :: i < k < |run| && run[k].Poll? && run[k].pid == pid ==>
               H.Steady(History(Init(cpus, start), run[..k], pid))
    ensures forall k :: i < k < |run| && run[k].Poll? && run[k].pid == pid ==>
              AlertsAt(After(Init(cpus, start), run[..k]), pid, run[k].now)
  {
    forall k | i < k < |run| && run[k].Poll? && run[k].pid == pid
      ensures AlertsAt(After(Init(cpus, start), run[..k]), pid, run[k].now)
    {
      hide After, History, View, Effect, H.After, H.Legal, H.Alerts, H.Stores, H.SincePolled, H.FewHits;
      var p := run[..k];
      assert p[..i] == run[..i];
      forall j | i < j < |p| ensures Harmless(Init(cpus, start), p, j, pid) {
        HarmlessInit(Init(cpus, start), run, j, k, pid);
      }
      RunIsWatched(cpus, start, p, i, pid);
      RunsFollowHistories(cpus, start, p, pid);
      H.EveryPollStores(History(Init(cpus, start), p, pid), cpus);
      PollIsRecorded(After(Init(cpus, start), p), run[k], pid);
      assert Harmless(Init(cpus, start), run, k, pid);
      AlertExactness(cpus, start, p, i, pid, run[k].now);
    }
  }

  // ---- no hit is lost ------------------------------------------------------------------

  ghost predicate NoExit(run: seq<Action>) {
    forall i :: 0 <= i < |run| ==> !run[i].Exit?
  }

  predicate IsCounted(t: Task, pid: U32, kind: HitKind) {
    t.pid == pid && t.kind == kind && t.pc == Counted
  }

  // The completed calls of add_to_counter for pid and kind.
  function CountedCalls(tasks: map<nat, Task>, pid: U32, kind: HitKind): set<nat> {
    set id | id in tasks && IsCounted(tasks[id], pid, kind)
  }

  function TaskPids(tasks: map<nat, Task>): set<U32> {
    set id | id in tasks :: tasks[id].pid
  }

  lemma CountedUpdate(tasks: map<nat, Task>, id: nat, t: Task, pid: U32, kind: HitKind)
    requires id in tasks ==> !IsCounted(tasks[id], pid, kind)
    ensures |CountedCalls(tasks[id := t], pid, kind)|
         == |CountedCalls(tasks, pid, kind)| + if IsCounted(t, pid, kind) then 1 else 0
  {
    var before, after := CountedCalls(tasks, pid, kind), CountedCalls(tasks[id := t], pid, kind);
    if IsCounted(t, pid, kind) {
      assert after == before + {id};
    } else {
      assert after == before;
    }
  }

  lemma PidsUpdate(tasks: map<nat, Task>, id: nat, t: Task)
    requires id in tasks ==> tasks[id].pid == t.pid
    ensures TaskPids(tasks[id := t]) == TaskPids(tasks) + {t.pid}
  {
    var after := tasks[id := t];
    assert after[id].pid in TaskPids(after);
    forall p | p in TaskPids(tasks) ensures p in TaskPids(after) {
      var i :| i in tasks && tasks[i].pid == p;
      assert after[i].pid == p;
    }
    forall p | p in TaskPids(after) ensures p in TaskPids(tasks) + {t.pid} {
      var i :| i in after && after[i].pid == p;
      if i != id { assert tasks[i].pid == p; }
    }
  }

  // Without deletions an entry, once found, stays; a call misses only when the
  // map is full and has no entry for its pid.
  ghost predicate TaskSettled(table: map<U32, nat>, t: Task) {
    match t.pc
    case Bumping(e) => t.pid in table && table[t.pid] == e
    case Counted => t.pid in table
    case LookingAgain => t.pid in table || |table| >= MAX_ENTRIES
    case Missed => t.pid !in table && |table| >= MAX_ENTRIES
    case _ => true
  }

  ghost predicate Settled(w: World) {
    && (forall id :: id in w.tasks ==> TaskSettled(w.table, w.tasks[id]))
    && w.table.Keys <= TaskPids(w.tasks)
  }

  lemma SettledStep(w: World, a: Action)
    requires Consistent(w) && Settled(w) && !a.Exit?
    ensures Settled(Next(w, a))
  {
    match a
    case Run(id, slot) => if id in w.tasks { SettledRun(w, id, slot); }
    case Start(id, cpu, pid, kind, _) =>
      if id !in w.tasks && cpu < w.cpus { PidsUpdate(w.tasks, id, Task(cpu, pid, kind, Looking)); }
    case _ =>
  }

  // The handler that runs, and the map it leaves.
  lemma RunSettlesTask(w: World, id: nat, slot: nat)
    requires id in w.tasks && TaskSettled(w.table, w.tasks[id])
    ensures var w', t := RunTask(w, id, slot), w.tasks[id];
            && w'.tasks == w.tasks[id := w'.tasks[id]] && w'.tasks[id].pid == t.pid
            && TaskSettled(w'.table, w'.tasks[id])
            && w'.table == if Creates(w, t, slot) then w.table[t.pid := slot] else w.table
  {
    hide Bump, H.FreshCells;
    assert w.tasks[id := w.tasks[id]] == w.tasks;
  }

  lemma SettledRun(w: World, id: nat, slot: nat)
    requires Settled(w) && id in w.tasks
    ensures Settled(RunTask(w, id, slot))
  {
    hide TaskPids, RunTask, TaskSettled;
    RunSettlesTask(w, id, slot);
    SamePids(w.tasks, id, RunTask(w, id, slot).tasks[id]);
    if Creates(w, w.tasks[id], slot) {
      CreationSettles(w.table, w.tasks, w.tasks[id], slot);
    }
  }

  lemma SamePids(tasks: map<nat, Task>, id: nat, t: Task)
    requires id in tasks && tasks[id].pid == t.pid
    ensures TaskPids(tasks[id := t]) == TaskPids(tasks) && t.pid in TaskPids(tasks)
  {
    PidsUpdate(tasks, id, t);
    assert tasks[id].pid in TaskPids(tasks);
  }

  lemma CreationSettles(table: map<U32, nat>, tasks: map<nat, Task>, t: Task, slot: nat)
    requires t.pid !in table && |table| < MAX_ENTRIES
    requires forall id :: id in tasks ==> TaskSettled(table, tasks[id])
    ensures forall id :: id in tasks ==> TaskSettled(table[t.pid := slot], tasks[id])
    ensures table[t.pid := slot].Keys == table.Keys + {t.pid}
  {
    TableSize(table, t.pid, slot);
  }

  // The hits of pid's entry are exactly the completed calls.
  lemma HitCountsStep(w: World, a: Action, pid: U32, kind: HitKind)
    requires Consistent(w) && Settled(w) && !a.Exit?
    ensures var es := Effect(w, a, pid);
            |CountedCalls(Next(w, a).tasks, pid, kind)|
              == |CountedCalls(w.tasks, pid, kind)| + (if es != [] && H.IsHit(es[0], kind) then 1 else 0)
  {
    hide Consistent, Settled, CountedCalls, RunTask, Totals, Visit;
    match a
    case Run(id, slot) =>
      if id in w.tasks && RunTask(w, id, slot) != w {
        HitCountsRun(w, id, slot, pid, kind);
      } else if id in w.tasks {
        IdleRunHitsNothing(w, id, slot, pid);
      }
    case Start(id, cpu, p, k, _) =>
      if id !in w.tasks { CountedUpdate(w.tasks, id, Task(cpu, p, k, Looking), pid, kind); }
    case _ =>
  }

  lemma HitCountsRun(w: World, id: nat, slot: nat, pid: U32, kind: HitKind)
    requires Consistent(w) && Settled(w) && id in w.tasks && RunTask(w, id, slot) != w
    ensures var es := Effect(w, Run(id, slot), pid);
            |CountedCalls(RunTask(w, id, slot).tasks, pid, kind)|
              == |CountedCalls(w.tasks, pid, kind)| + (if es != [] && H.IsHit(es[0], kind) then 1 else 0)
  {
    hide CountedCalls, TaskPids, Bump, H.FreshCells;
    var t, w' := w.tasks[id], RunTask(w, id, slot);
    assert w'.tasks == w.tasks[id := w'.tasks[id]];
    CountedUpdate(w.tasks, id, w'.tasks[id], pid, kind);
  }

  lemma IdleRunHitsNothing(w: World, id: nat, slot: nat, pid: U32)
    requires id in w.tasks && RunTask(w, id, slot) == w
    ensures Effect(w, Run(id, slot), pid) == []
  {
    hide Bump, H.FreshCells;
    assert RunTask(w, id, slot).tasks[id] == w.tasks[id];
  }

  // Before its entry exists no call for a pid has completed.
  lemma NoneCountedBefore(w: World, pid: U32, kind: HitKind)
    requires Settled(w) && pid !in w.table
    ensures CountedCalls(w.tasks, pid, kind) == {}
  {
  }

  lemma SinceCreatedExtend(h: seq<H.PidEvent>, es: seq<H.PidEvent>, kind: HitKind)
    requires |es| <= 1
    ensures H.SinceCreated(h + es, kind)
         == if es != [] && es[0].Created? then 0
            else H.SinceCreated(h, kind) + if es != [] && H.IsHit(es[0], kind) then 1 else 0
  {
    if es == [] {
      assert h + es == h;
    } else {
      assert (h + es)[..|h|] == h && (h + es)[|h|] == es[0];
    }
  }

  lemma CreationIsFirst(w: World, a: Action, pid: U32, kind: HitKind)
    requires Settled(w)
    ensures Effect(w, a, pid) != [] && Effect(w, a, pid)[0].Created? ==> |CountedCalls(w.tasks, pid, kind)| == 0
  {
    if pid !in w.table {
      NoneCountedBefore(w, pid, kind);
    }
  }

  lemma {:induction false} HitsAreCalls(cpus: nat, start: U64, run: seq<Action>, pid: U32, kind: HitKind)
    requires start > 0 && NoExit(run)
    ensures var w := After(Init(cpus, start), run);
            Settled(w)
            && H.SinceCreated(History(Init(cpus, start), run, pid), kind) == |CountedCalls(w.tasks, pid, kind)|
  {
    if run == [] {
      assert CountedCalls(map[], pid, kind) == {};
    } else {
      var init, a := run[..|run| - 1], run[|run| - 1];
      HitsAreCalls(cpus, start, init, pid, kind);
      RunsFollowHistories(cpus, start, init, pid);
      var w, h := After(Init(cpus, start), init), History(Init(cpus, start), init, pid);
      CreationIsFirst(w, a, pid, kind);
      hide Consistent, Settled, View, Next, Effect, H.After, H.Legal, H.Applies, H.SinceCreated, CountedCalls;
      SettledStep(w, a);
      ViewStep(w, a, pid);
      HitCountsStep(w, a, pid, kind);
      SinceCreatedExtend(h, Effect(w, a, pid), kind);
    }
  }

  lemma MissedOnlyWhenFull(w: World, id: nat)
    requires Consistent(w) && Settled(w) && id in w.tasks && w.tasks[id].pc == Missed
    ensures w.tasks[id].pid !in w.table && |w.table| == 1024 && |TaskPids(w.tasks)| > 1024
  {
    assert TaskSettled(w.table, w.tasks[id]);
    assert w.tasks[id].pid in TaskPids(w.tasks);
    SubsetSize(w.table.Keys + {w.tasks[id].pid}, TaskPids(w.tasks));
  }

  // Under every interleaving without deletions, however the CPUs race to create
  // an entry: a call misses only if the map is full without its pid, so never
  // with at most 1024 pids; the cells of an entry sum, modulo 2^64, to the
  // completed calls for its pid; and its smallest non-zero first-seen time is
  // the stamp of the one handler that created it.
  lemma NoHitIsLost(cpus: nat, start: U64, run: seq<Action>, pid: U32, kind: HitKind)
    requires start > 0 && NoExit(run)
    ensures var w := After(Init(cpus, start), run);
            && (forall id :: id in w.tasks && w.tasks[id].pc == Missed ==>
                  w.tasks[id].pid !in w.table && |w.table| == 1024 && |TaskPids(w.tasks)| > 1024)
            && match View(w, pid).entry
               case Some(cells) =>
                 && Wrap64(SumOf(cells, kind)) == Wrap64(|CountedCalls(w.tasks, pid, kind)|)
                 && H.CellsMatch(cells, History(Init(cpus, start), run, pid), cpus)
               case None => CountedCalls(w.tasks, pid, kind) == {}
  {
    var w, h := After(Init(cpus, start), run), History(Init(cpus, start), run, pid);
    hide After, History, H.After, H.Legal, SumOf, FirstSeen, Wrap64;
    RunsFollowHistories(cpus, start, run, pid);
    HitsAreCalls(cpus, start, run, pid, kind);
    H.CountersCount(h, cpus);
    if pid !in w.table {
      NoneCountedBefore(w, pid, kind);
    }
    forall id | id in w.tasks && w.tasks[id].pc == Missed
      ensures w.tasks[id].pid !in w.table && |w.table| == 1024 && |TaskPids(w.tasks)| > 1024
    {
      MissedOnlyWhenFull(w, id);
    }
  }
}
