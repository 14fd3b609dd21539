// The BPF handlers, each run without interruption: what one call does to the
// watchdog's map, the table of pending calls and the ring buffer.
module Probes {
  import opened Wrappers
  import opened Arith
  import opened Records
  import opened Watchdog
  import opened WatchdogKernel
  import H = PidHistory
  import L = Launch
  import S = SyncTracer

  const NVIDIA_MAJOR: U32 := 195
  const NVIDIA_UVM_MAJOR: U32 := 511
  const NVIDIA_MODESET_MINOR: U32 := 254

  predicate IsNvidiaComputeDevice(major: U32, minor: U32) {
    if major == NVIDIA_UVM_MAJOR then true
    else if major == NVIDIA_MAJOR && minor < NVIDIA_MODESET_MINOR then true
    else false
  }

  // The process of a combined process and thread id.
  function PidOf(id: U64): U32 {
    id / 0x1_0000_0000
  }

  // The process is in the upper half, the thread in the lower.
  lemma PidOfCombined(tgid: U32, tid: U32)
    ensures PidOf(tgid * TWO_32 + tid) == tgid
  {
  }

  // The entry of a process after one call of add_to_counter: created first if
  // it is missing and there is room, then bumped.
  function AfterCall(entry: Option<seq<Cell>>, room: bool, cpus: nat, cpu: nat, kind: HitKind, now: U64)
    : Option<seq<Cell>>
  {
    var s := H.PidState(entry, None);
    var created := if entry == None && room then H.Next(s, H.Created(cpu, now), cpus) else s;
    H.Next(created, H.Hit(cpu, kind, true), cpus).entry
  }

  // One call counts exactly one hit of its kind, or none when there is neither
  // an entry nor room for one.
  lemma OneCallOneHit(entry: Option<seq<Cell>>, room: bool, cpus: nat, cpu: nat, kind: HitKind, now: U64, k: HitKind)
    requires cpu < cpus && now > 0 && (entry.Some? ==> |entry.value| == cpus)
    ensures var after := AfterCall(entry, room, cpus, cpu, kind, now);
            if entry == None && !room then after == None
            else after.Some? &&
                 Wrap64(SumOf(after.value, k))
                 == Wrap64((if entry.Some? then SumOf(entry.value, k) else 0) + if kind == k then 1 else 0)
    ensures var after := AfterCall(entry, room, cpus, cpu, kind, now);
            after.Some? ==> FirstSeen(after.value) == if entry.Some? then FirstSeen(entry.value) else now
  {
    hide SumOf, FirstSeen, Wrap64;
    H.FreshCellsAreEmpty(cpus, cpu, now, k);
    if entry.Some? || room {
      var cells := if entry.Some? then entry.value else H.FreshCells(cpus, cpu, now);
      H.BumpedSum(cells, cpu, kind, k, SumOf(cells, k));
      FirstSeenUpdate(cells, cpu, cells[cpu].Bumped(kind));
    }
  }

  // The world after handler id starts and runs alone to its end.
  function Alone(w: World, id: nat, cpu: nat, pid: U32, kind: HitKind, slot: nat): World {
    var step := Action.Run(id, slot);
    Next(Next(Next(Next(Next(w, Start(id, cpu, pid, kind, true)), step), step), step), step)
  }

  lemma AloneFindsEntry(w: World, id: nat, cpu: nat, pid: U32, kind: HitKind, slot: nat)
    requires Consistent(w) && id !in w.tasks && cpu < w.cpus && pid in w.table
    ensures var e := w.table[pid];
            Alone(w, id, cpu, pid, kind, slot) ==
              w.(tasks := w.tasks[id := Task(cpu, pid, kind, Counted)],
                 elems := w.elems[e := Bump(w.elems[e], cpu, kind)])
  {
    hide Bump;
    var t := Task(cpu, pid, kind, Looking);
    assert w.table[pid] in w.elems;
    assert w.tasks[id := t][id := t.(pc := Bumping(w.table[pid]))][id := t.(pc := Counted)]
        == w.tasks[id := t.(pc := Counted)];
  }

  lemma CreatesInTwoSteps(w: World, id: nat, t: Task, slot: nat)
    requires id !in w.tasks && t.cpu < w.cpus && t.pc == Looking && slot !in w.table.Values
    requires t.pid !in w.table && |w.table| < 1024
    ensures var step := Action.Run(id, slot);
            Next(Next(Next(w, Start(id, t.cpu, t.pid, t.kind, true)), step), step) ==
              w.(tasks := w.tasks[id := t.(pc := LookingAgain)], table := w.table[t.pid := slot],
                 elems := w.elems[slot := Element(t.pid, H.FreshCells(w.cpus, t.cpu, w.now))])
  {
    hide H.FreshCells;
    var w2 := w.(tasks := w.tasks[id := t.(pc := Creating(w.now))]);
    assert w.tasks[id := t][id := t.(pc := Creating(w.now))] == w2.tasks;
    assert Next(Next(w, Start(id, t.cpu, t.pid, t.kind, true)), Action.Run(id, slot)) == w2;
    assert w2.tasks[id := t.(pc := LookingAgain)] == w.tasks[id := t.(pc := LookingAgain)];
  }

  lemma BumpsInTwoSteps(w: World, id: nat, slot: nat)
    requires id in w.tasks && w.tasks[id].pc == LookingAgain
    requires w.tasks[id].pid in w.table && w.table[w.tasks[id].pid] == slot && slot in w.elems
    ensures var step, t := Action.Run(id, slot), w.tasks[id];
            Next(Next(w, step), step) ==
              w.(tasks := w.tasks[id := t.(pc := Counted)],
                 elems := w.elems[slot := Bump(w.elems[slot], t.cpu, t.kind)])
  {
    hide Bump;
    var t := w.tasks[id];
    assert w.tasks[id := t.(pc := Bumping(slot))][id := t.(pc := Counted)] == w.tasks[id := t.(pc := Counted)];
  }

  lemma AloneCreatesEntry(w: World, id: nat, cpu: nat, pid: U32, kind: HitKind, slot: nat)
    requires id !in w.tasks && cpu < w.cpus && slot !in w.table.Values
    requires pid !in w.table && |w.table| < 1024
    ensures Alone(w, id, cpu, pid, kind, slot)
         == w.(tasks := w.tasks[id := Task(cpu, pid, kind, Counted)], table := w.table[pid := slot],
               elems := w.elems[slot := Bump(Element(pid, H.FreshCells(w.cpus, cpu, w.now)), cpu, kind)])
  {
    hide Bump, H.FreshCells, Next;
    var t, created := Task(cpu, pid, kind, Looking), Element(pid, H.FreshCells(w.cpus, cpu, w.now));
    CreatesInTwoSteps(w, id, t, slot);
    var w3 := w.(tasks := w.tasks[id := t.(pc := LookingAgain)], table := w.table[pid := slot],
                 elems := w.elems[slot := created]);
    BumpsInTwoSteps(w3, id, slot);
    assert w3.tasks[id := t.(pc := Counted)] == w.tasks[id := t.(pc := Counted)];
    assert w3.elems[slot := Bump(created, cpu, kind)] == w.elems[slot := Bump(created, cpu, kind)];
  }

  lemma AloneMisses(w: World, id: nat, cpu: nat, pid: U32, kind: HitKind, slot: nat)
    requires id !in w.tasks && cpu < w.cpus && pid !in w.table && |w.table| >= 1024
    ensures Alone(w, id, cpu, pid, kind, slot) == w.(tasks := w.tasks[id := Task(cpu, pid, kind, Missed)])
  {
    var t := Task(cpu, pid, kind, Looking);
    assert w.tasks[id := t][id := t.(pc := Creating(w.now))][id := t.(pc := LookingAgain)][id := t.(pc := Missed)]
        == w.tasks[id := t.(pc := Missed)];
  }

  // A call that counts nothing is lost to the process's history: its handler
  // started without ring space, or found neither an entry nor room for one.
  lemma UncountedCallsAreLost(w: World, id: nat, cpu: nat, pid: U32, kind: HitKind, slot: nat)
    requires id !in w.tasks && cpu < w.cpus
    ensures var a := Start(id, cpu, pid, UprobeHit, false);
            Next(w, a) == w && Effect(w, a, pid) == [H.Lost(UprobeHit)]
    ensures pid !in w.table && |w.table| >= 1024 ==>
              var step := Action.Run(id, slot);
              var w' := Next(Next(Next(w, Start(id, cpu, pid, kind, true)), step), step);
              Effect(w', step, pid) == [H.Lost(kind)]
  {
  }

  // Among all interleavings, the one without interruption is AfterCall: the
  // handlers below and the step-by-step model agree.
  lemma AloneIsAfterCall(w: World, id: nat, cpu: nat, pid: U32, kind: HitKind, slot: nat)
    requires Consistent(w) && id !in w.tasks && cpu < w.cpus && w.now > 0 && slot !in w.table.Values
    ensures View(Alone(w, id, cpu, pid, kind, slot), pid).entry
         == AfterCall(View(w, pid).entry, |w.table| < 1024, w.cpus, cpu, kind, w.now)
  {
    hide Alone, Totals, Visit;
    if pid in w.table {
      AloneFindsEntry(w, id, cpu, pid, kind, slot);
    } else if |w.table| < MAX_ENTRIES {
      AloneCreatesEntry(w, id, cpu, pid, kind, slot);
    } else {
      AloneMisses(w, id, cpu, pid, kind, slot);
    }
  }

  class Handlers {
    const cpus: nat
    var table: map<U32, nat>
    var elems: map<nat, Element>
    var starts: S.Starts
    var ring: seq<seq<U8>>

    ghost predicate Valid()
      reads `table, `elems
    {
      EntriesOk(cpus, table, elems)
    }

    ghost function Entry(pid: U32): (entry: Option<seq<Cell>>)
      requires Valid()
      reads `table, `elems
      ensures entry.Some? ==> |entry.value| == cpus
    {
      if pid in table then Some(elems[table[pid]].cells) else None
    }

    constructor (cpus: nat)
      ensures Valid() && this.cpus == cpus && table == map[] && starts == map[] && ring == []
    {
      this.cpus := cpus;
      table, elems, starts, ring := map[], map[], map[], [];
    }

    // slot is the element the allocator would hand out.
    method GetOrInit(cpu: nat, pid: U32, now: U64, slot: nat) returns (e: Option<nat>)
      requires Valid() && cpu < cpus && slot !in table.Values
      modifies `table, `elems
      ensures Valid()
      ensures Entry(pid) == if pid !in old(table) && |old(table)| < 1024 then Some(H.FreshCells(cpus, cpu, now))
                            else old(Entry(pid))
      ensures forall q :: q != pid ==> Entry(q) == old(Entry(q))
      ensures e == if pid in table then Some(table[pid]) else None
    {
      hide H.FreshCells;
      if pid in table {
        return Some(table[pid]);
      }
      if |table| < MAX_ENTRIES {
        CreationKeepsEntries(cpus, table, elems, pid, slot, H.FreshCells(cpus, cpu, now));
        forall q | q in table ensures table[q] != slot {
          assert table[q] in table.Values;
        }
        elems := elems[slot := Element(pid, H.FreshCells(cpus, cpu, now))];
        table := table[pid := slot];
      }
      return if pid in table then Some(table[pid]) else None;
    }

    method AddToCounter(cpu: nat, pid: U32, kind: HitKind, now: U64, slot: nat)
      requires Valid() && cpu < cpus && now > 0 && slot !in table.Values
      modifies `table, `elems
      ensures Valid()
      ensures Entry(pid) == AfterCall(old(Entry(pid)), |old(table)| < 1024, cpus, cpu, kind, now)
      ensures forall q :: q != pid ==> Entry(q) == old(Entry(q))
    {
      hide H.FreshCells;
      var hit := GetOrInit(cpu, pid, now, slot);
      if hit.Some? {
        var e := hit.value;
        var cells := elems[e].cells;
        forall q | q in table && q != pid ensures table[q] != e {
          assert elems[table[q]].key == q && elems[e].key == pid;
        }
        elems := elems[e := elems[e].(cells := cells[cpu := cells[cpu].Bumped(kind)])];
      }
    }

    method HandleLaunch(cpu: nat, id: U64, comm: Comm, d: L.Dims, reserved: bool, p: Padding, now: U64, slot: nat)
      requires Valid() && cpu < cpus && now > 0 && slot !in table.Values && p.Valid()
      modifies `table, `elems, `ring
      ensures Valid()
      ensures ring == old(ring) + if reserved then [Layout(L.LaunchRecord(PidOf(id), comm, d), p)] else []
      ensures forall q :: Entry(q) ==
                if reserved && q == PidOf(id)
                then AfterCall(old(Entry(q)), |old(table)| < 1024, cpus, cpu, UprobeHit, now)
                else old(Entry(q))
    {
      hide EntriesOk, Layout, AfterCall;
      if !reserved {
        return;
      }
      var pid := PidOf(id);
      var totalBlocks := Mul64(Mul64(d.gridX, d.gridY), d.gridZ);
      var threadsBlock := Mul64(Mul64(d.blockX, d.blockY), d.blockZ);
      var e := KernelLaunch(pid, comm, Wrap32(d.gridX), Wrap32(d.gridY), Wrap32(d.gridZ),
                            Wrap32(d.blockX), Wrap32(d.blockY), Wrap32(d.blockZ),
                            totalBlocks, threadsBlock, Mul64(totalBlocks, threadsBlock));
      ring := ring + [Layout(e, p)];
      AddToCounter(cpu, pid, UprobeHit, now, slot);
    }

    method HandleMemAlloc(cpu: nat, id: U64, comm: Comm, bytes: U64, reserved: bool, p: Padding, now: U64, slot: nat)
      requires Valid() && cpu < cpus && now > 0 && slot !in table.Values && p.Valid()
      modifies `table, `elems, `ring
      ensures Valid()
      ensures ring == old(ring) + if reserved then [Layout(MemAlloc(PidOf(id), comm, bytes), p)] else []
      ensures forall q :: Entry(q) ==
                if reserved && q == PidOf(id)
                then AfterCall(old(Entry(q)), |old(table)| < 1024, cpus, cpu, UprobeHit, now)
                else old(Entry(q))
    {
      hide EntriesOk, Layout, AfterCall;
      if !reserved {
        return;
      }
      ring := ring + [Layout(MemAlloc(PidOf(id), comm, bytes), p)];
      AddToCounter(cpu, PidOf(id), UprobeHit, now, slot);
    }

    // The four copy handlers differ only in the direction they record.
    method HandleMemcpy(cpu: nat, id: U64, comm: Comm, bytes: U64, dir: U8, reserved: bool, p: Padding, now: U64,
                        slot: nat)
      requires Valid() && cpu < cpus && now > 0 && slot !in table.Values && p.Valid()
      requires dir == DIR_HTOD || dir == DIR_DTOH
      modifies `table, `elems, `ring
      ensures Valid()
      ensures ring == old(ring) + if reserved then [Layout(Memcpy(PidOf(id), comm, bytes, dir), p)] else []
      ensures forall q :: Entry(q) ==
                if reserved && q == PidOf(id)
                then AfterCall(old(Entry(q)), |old(table)| < 1024, cpus, cpu, UprobeHit, now)
                else old(Entry(q))
    {
      hide EntriesOk, Layout, AfterCall;
      if !reserved {
        return;
      }
      ring := ring + [Layout(Memcpy(PidOf(id), comm, bytes, dir), p)];
      AddToCounter(cpu, PidOf(id), UprobeHit, now, slot);
    }

    // Both sync entry probes.
    method HandleSyncEntry(id: U64, ts: U64)
      modifies `starts
      ensures starts == S.AfterEntry(old(starts), id, ts)
    {
      if id in starts || |starts| < S.MAX_ENTRIES {
        starts := starts[id := ts];
      }
    }

    // Both sync return probes.
    method HandleSyncReturn(cpu: nat, id: U64, comm: Comm, reserved: bool, p: Padding, now: U64, slot: nat)
      requires Valid() && cpu < cpus && now > 0 && slot !in table.Values && p.Valid()
      modifies `table, `elems, `ring, `starts
      ensures Valid()
      ensures starts == S.AfterReturn(old(starts), id, reserved)
      ensures ring == old(ring) +
                if S.Emits(old(starts), id, reserved)
                then var r := S.MakeRecord(id, old(starts)[id], now);
                     [Layout(StreamSync(PidOf(id), comm, r.startTime, r.endTime, r.deltaNs), p)]
                else []
      ensures forall q :: Entry(q) ==
                if S.Emits(old(starts), id, reserved) && q == PidOf(id)
                then AfterCall(old(Entry(q)), |old(table)| < 1024, cpus, cpu, UprobeHit, now)
                else old(Entry(q))
    {
      hide EntriesOk, Layout, AfterCall;
      if id !in starts {
        return;
      }
      if !reserved {
        return;
      }
      var startTime := starts[id];
      var endTime := now;
      var e := StreamSync(PidOf(id), comm, startTime, endTime, Sub64(endTime, startTime));
      starts := starts - {id};
      ring := ring + [Layout(e, p)];
      AddToCounter(cpu, PidOf(id), UprobeHit, now, slot);
    }

    method WatchdogIoctl(cpu: nat, id: U64, major: U32, minor: U32, now: U64, slot: nat)
      requires Valid() && cpu < cpus && now > 0 && slot !in table.Values
      modifies `table, `elems
      ensures Valid()
      ensures forall q :: Entry(q) ==
                if q == PidOf(id) && (major == 511 || (major == 195 && minor < 254))
                then AfterCall(old(Entry(q)), |old(table)| < 1024, cpus, cpu, IoctlHit, now)
                else old(Entry(q))
    {
      hide EntriesOk, AfterCall;
      if !IsNvidiaComputeDevice(major, minor) {
        return;
      }
      AddToCounter(cpu, PidOf(id), IoctlHit, now, slot);
    }

    // Runs at the exit of every thread, with its process's id.
    method HandleProcessExit(id: U64)
      requires Valid()
      modifies `table
      ensures Valid()
      ensures forall q :: Entry(q) == if q == PidOf(id) then None else old(Entry(q))
    {
      assert (table - {PidOf(id)}).Keys == table.Keys - {PidOf(id)};
      assert |(table - {PidOf(id)}).Keys| <= |table.Keys|;
      table := table - {PidOf(id)};
    }
  }

  // ---- whole traces of synchronisation probes --------------------------------------

  // A probe as it fires: on some CPU, for a named process, its record's padding
  // left as it was.
  datatype Firing = Firing(probe: S.Probe, cpu: nat, comm: Comm, padding: Padding)

  ghost predicate Fires(f: Firing, cpus: nat) {
    f.cpu < cpus && f.padding.Valid() && f.probe.ts > 0
  }

  function ProbesOf(fs: seq<Firing>): seq<S.Probe> {
    seq(|fs|, i requires 0 <= i < |fs| => fs[i].probe)
  }

  // The ring holds the records, in order, as the loader will decode them.
  ghost predicate RingShows(ring: seq<seq<U8>>, records: seq<S.SyncRecord>) {
    |ring| == |records| && forall i :: 0 <= i < |ring| ==> Shows(ring[i], records[i])
  }

  ghost predicate Shows(raw: seq<U8>, r: S.SyncRecord) {
    var d := Dispatch(raw);
    && d.Decoded? && d.event.StreamSync?
    && d.event.pid == PidOf(r.tid) && d.event.startTime == r.startTime
    && d.event.endTime == r.endTime && d.event.deltaNs == r.deltaNs
  }

  lemma LaidOutShows(r: S.SyncRecord, comm: Comm, p: Padding)
    requires p.Valid()
    ensures Shows(Layout(StreamSync(PidOf(r.tid), comm, r.startTime, r.endTime, r.deltaNs), p), r)
  {
    hide Dispatch, Layout;
    var e := StreamSync(PidOf(r.tid), comm, r.startTime, r.endTime, r.deltaNs);
    DispatchLayout(e, p, []);
    assert Layout(e, p) + [] == Layout(e, p);
  }

  // An element the allocator may hand out.
  method FreeSlot(used: set<nat>) returns (slot: nat)
    ensures slot !in used
  {
    slot := 0;
    var todo := used;
    while todo != {}
      invariant forall x :: x in used ==> x in todo || x < slot
      decreases todo
    {
      var e :| e in todo;
      todo := todo - {e};
      slot := if e < slot then slot else e + 1;
    }
  }

  // What is so between any two firings.
  ghost predicate Traced(h: Handlers, trace: seq<S.Probe>)
    reads h
  {
    h.Valid() && h.starts == S.Table(trace) && RingShows(h.ring, S.Records(trace))
  }

  method Fire(h: Handlers, f: Firing, ghost trace: seq<S.Probe>)
    requires Traced(h, trace) && Fires(f, h.cpus)
    modifies h
    ensures Traced(h, trace + [f.probe])
  {
    hide h.Valid, Dispatch, Layout, AfterCall, Shows, S.Table, S.Records;
    S.TraceAppend(trace, f.probe);
    ghost var ring, starts := h.ring, h.starts;
    match f.probe
    case Entry(tid, ts) =>
      h.HandleSyncEntry(tid, ts);
      RingGrows(ring, S.Records(trace), [], []);
      assert ring + [] == ring;
    case Return(tid, ts, reserved) =>
      var slot := FreeSlot(h.table.Values);
      h.HandleSyncReturn(f.cpu, tid, f.comm, reserved, f.padding, ts, slot);
      if S.Emits(starts, tid, reserved) {
        LaidOutShows(S.MakeRecord(tid, starts[tid], ts), f.comm, f.padding);
      }
      RingGrows(ring, S.Records(trace), h.ring[|ring|..], S.EmittedBy(starts, f.probe));
      assert ring + h.ring[|ring|..] == h.ring;
  }

  // The handlers, called one after the other on any trace, keep the table of
  // SyncTracer, and what the loader decodes from the ring are its records.
  method FireAll(h: Handlers, fs: seq<Firing>)
    requires h.Valid() && h.starts == map[] && h.ring == []
    requires forall i :: 0 <= i < |fs| ==> Fires(fs[i], h.cpus)
    modifies h
    ensures h.Valid()
    ensures h.starts == S.Table(ProbesOf(fs)) && RingShows(h.ring, S.Records(ProbesOf(fs)))
  {
    for i := 0 to |fs|
      invariant Traced(h, ProbesOf(fs[..i]))
    {
      hide Traced, Fires;
      assert ProbesOf(fs[..i + 1]) == ProbesOf(fs[..i]) + [fs[i].probe];
      Fire(h, fs[i], ProbesOf(fs[..i]));
    }
    assert fs[..|fs|] == fs;
  }

  lemma RingGrows(ring: seq<seq<U8>>, records: seq<S.SyncRecord>, more: seq<seq<U8>>, news: seq<S.SyncRecord>)
    requires RingShows(ring, records) && RingShows(more, news)
    ensures RingShows(ring + more, records + news)
  {
    hide Shows;
  }
}
