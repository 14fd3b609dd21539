// Whole sequences of handler calls: what they leave in the ring buffer is what
// the telemetry state machine's producers put there.
module Producers {
  import opened Wrappers
  import opened Arith
  import opened Orders
  import opened Records
  import opened Stats
  import opened Watchdog
  import opened WatchdogKernel
  import opened Probes
  import L = Launch
  import S = SyncTracer
  import T = Telemetry
  import G = Guarantees

  // A handler as it fires: on some CPU at some time, for a combined process and
  // thread id; and whether it gets ring space.
  datatype Site = Site(cpu: nat, id: U64, comm: Comm, now: U64, reserved: bool, padding: Padding)

  datatype HandlerCall =
    | Launch(site: Site, dims: L.Dims)
    | Alloc(site: Site, bytes: U64)
    | Copy(site: Site, bytes: U64, dir: U8)
    | SyncEntry(site: Site)
    | SyncReturn(site: Site)
    | Ioctl(site: Site, major: U32, minor: U32)
    | ThreadExit(site: Site)

  ghost predicate Fireable(c: HandlerCall, cpus: nat) {
    && c.site.cpu < cpus && c.site.now > 0 && c.site.padding.Valid()
    && (c.Copy? ==> c.dir == DIR_HTOD || c.dir == DIR_DTOH)
  }

  // A record as a handler submits it.
  datatype Submission = Submission(event: Event, padding: Padding)

  function StartsAfter(starts: S.Starts, c: HandlerCall): S.Starts {
    match c
    case SyncEntry(site) => S.AfterEntry(starts, site.id, site.now)
    case SyncReturn(site) => S.AfterReturn(starts, site.id, site.reserved)
    case _ => starts
  }

  // What one call submits: nothing without ring space, and a synchronisation
  // return nothing without a stored start.
  function Submits(starts: S.Starts, c: HandlerCall): seq<Submission> {
    var pid, comm := PidOf(c.site.id), c.site.comm;
    if !c.site.reserved then []
    else
      match c
      case Launch(_, d) => [Submission(L.LaunchRecord(pid, comm, d), c.site.padding)]
      case Alloc(_, n) => [Submission(MemAlloc(pid, comm, n), c.site.padding)]
      case Copy(_, n, dir) => [Submission(Memcpy(pid, comm, n, dir), c.site.padding)]
      case SyncReturn(site) =>
        if site.id !in starts then []
        else
          var r := S.MakeRecord(site.id, starts[site.id], site.now);
          [Submission(StreamSync(pid, comm, r.startTime, r.endTime, r.deltaNs), site.padding)]
      case _ => []
  }

  function StartsAll(calls: seq<HandlerCall>): S.Starts {
    if calls == [] then map[] else StartsAfter(StartsAll(calls[..|calls| - 1]), calls[|calls| - 1])
  }

  function SubmitsAll(calls: seq<HandlerCall>): seq<Submission> {
    if calls == [] then []
    else
      var init := calls[..|calls| - 1];
      SubmitsAll(init) + Submits(StartsAll(init), calls[|calls| - 1])
  }

  // The watchdog's entries, as values.
  type Entries = map<U32, seq<Cell>>

  function EntryOf(entries: Entries, pid: U32): Option<seq<Cell>> {
    if pid in entries then Some(entries[pid]) else None
  }

  // Compute ioctls count an ioctl hit and submissions a uprobe hit.
  function Hitting(starts: S.Starts, c: HandlerCall): Option<HitKind> {
    if c.Ioctl? then if c.major == 511 || (c.major == 195 && c.minor < 254) then Some(IoctlHit) else None
    else if Submits(starts, c) != [] then Some(UprobeHit) else None
  }

  // What becomes of one process's entry.
  function EntryAfter(entry: Option<seq<Cell>>, q: U32, room: bool, cpus: nat, c: HandlerCall, hit: Option<HitKind>)
    : Option<seq<Cell>>
  {
    if q != PidOf(c.site.id) then entry
    else if c.ThreadExit? then None
    else if hit.Some? then AfterCall(entry, room, cpus, c.site.cpu, hit.value, c.site.now)
    else entry
  }

  function EntriesAfter(entries: Entries, c: HandlerCall, cpus: nat, hit: Option<HitKind>): Entries {
    var pid := PidOf(c.site.id);
    var entry := EntryAfter(EntryOf(entries, pid), pid, |entries| < 1024, cpus, c, hit);
    if entry.Some? then entries[pid := entry.value] else entries - {pid}
  }

  function EntriesAll(calls: seq<HandlerCall>, cpus: nat): Entries {
    if calls == [] then map[]
    else
      var init := calls[..|calls| - 1];
      var c := calls[|calls| - 1];
      EntriesAfter(EntriesAll(init, cpus), c, cpus, Hitting(StartsAll(init), c))
  }

  function Raw(ss: seq<Submission>): seq<seq<U8>> {
    seq(|ss|, i requires 0 <= i < |ss| => Layout(ss[i].event, ss[i].padding))
  }

  function EventsOf(ss: seq<Submission>): seq<Event> {
    seq(|ss|, i requires 0 <= i < |ss| => ss[i].event)
  }

  // ---- the handlers -------------------------------------------------------------

  // What is so between any two calls.
  ghost predicate Ran(h: Handlers, calls: seq<HandlerCall>)
    reads h
  {
    && h.Valid() && h.starts == StartsAll(calls) && h.ring == Raw(SubmitsAll(calls))
    && Mirrors(h, EntriesAll(calls, h.cpus))
  }

  ghost predicate Mirrors(h: Handlers, entries: Entries)
    requires h.Valid()
    reads h
  {
    forall q :: h.Entry(q) == EntryOf(entries, q)
  }

  lemma OneMoreCall(calls: seq<HandlerCall>, c: HandlerCall)
    ensures StartsAll(calls + [c]) == StartsAfter(StartsAll(calls), c)
    ensures Raw(SubmitsAll(calls + [c])) == Raw(SubmitsAll(calls)) + Raw(Submits(StartsAll(calls), c))
    ensures SubmitsAll(calls + [c]) == SubmitsAll(calls) + Submits(StartsAll(calls), c)
    ensures forall cpus :: EntriesAll(calls + [c], cpus)
                        == EntriesAfter(EntriesAll(calls, cpus), c, cpus, Hitting(StartsAll(calls), c))
  {
    hide EntriesAfter, Hitting, Submits, StartsAfter;
    assert (calls + [c])[..|calls|] == calls;
  }

  lemma RawOne(e: Event, p: Padding)
    ensures Raw([Submission(e, p)]) == [Layout(e, p)] && Raw([]) == []
  {
  }

  // What a call is to do, given the starts, the ring and the entries before it.
  ghost predicate Performed(h: Handlers, c: HandlerCall, starts: S.Starts, ring: seq<seq<U8>>, entries: Entries)
    reads h
  {
    && h.Valid()
    && h.starts == StartsAfter(starts, c)
    && h.ring == ring + Raw(Submits(starts, c))
    && forall q :: h.Entry(q) == EntryAfter(EntryOf(entries, q), q, |entries| < 1024, h.cpus, c, Hitting(starts, c))
  }

  lemma SameSize(h: Handlers, entries: Entries)
    requires h.Valid() && Mirrors(h, entries)
    ensures |h.table| == |entries|
  {
    forall q ensures q in h.table <==> q in entries {
      assert h.Entry(q) == EntryOf(entries, q);
    }
    assert h.table.Keys == entries.Keys;
    assert |h.table| == |h.table.Keys| && |entries| == |entries.Keys|;
  }

  method PerformLaunch(h: Handlers, c: HandlerCall, ghost entries: Entries)
    requires h.Valid() && Mirrors(h, entries) && Fireable(c, h.cpus) && c.Launch?
    modifies h
    ensures Performed(h, c, old(h.starts), old(h.ring), entries)
  {
    hide h.Valid, h.Entry, Layout, AfterCall, L.LaunchRecord, Raw;
    SameSize(h, entries);
    var s := c.site;
    var slot := FreeSlot(h.table.Values);
    RawOne(L.LaunchRecord(PidOf(s.id), s.comm, c.dims), s.padding);
    h.HandleLaunch(s.cpu, s.id, s.comm, c.dims, s.reserved, s.padding, s.now, slot);
  }

  method PerformAlloc(h: Handlers, c: HandlerCall, ghost entries: Entries)
    requires h.Valid() && Mirrors(h, entries) && Fireable(c, h.cpus) && c.Alloc?
    modifies h
    ensures Performed(h, c, old(h.starts), old(h.ring), entries)
  {
    hide h.Valid, h.Entry, Layout, AfterCall, Raw;
    SameSize(h, entries);
    var s := c.site;
    var slot := FreeSlot(h.table.Values);
    RawOne(MemAlloc(PidOf(s.id), s.comm, c.bytes), s.padding);
    h.HandleMemAlloc(s.cpu, s.id, s.comm, c.bytes, s.reserved, s.padding, s.now, slot);
  }

  method PerformCopy(h: Handlers, c: HandlerCall, ghost entries: Entries)
    requires h.Valid() && Mirrors(h, entries) && Fireable(c, h.cpus) && c.Copy?
    modifies h
    ensures Performed(h, c, old(h.starts), old(h.ring), entries)
  {
    hide h.Valid, h.Entry, Layout, AfterCall, Raw;
    SameSize(h, entries);
    var s := c.site;
    var slot := FreeSlot(h.table.Values);
    RawOne(Memcpy(PidOf(s.id), s.comm, c.bytes, c.dir), s.padding);
    h.HandleMemcpy(s.cpu, s.id, s.comm, c.bytes, c.dir, s.reserved, s.padding, s.now, slot);
  }

  method PerformSync(h: Handlers, c: HandlerCall, ghost entries: Entries)
    requires h.Valid() && Mirrors(h, entries) && Fireable(c, h.cpus) && (c.SyncEntry? || c.SyncReturn?)
    modifies h
    ensures Performed(h, c, old(h.starts), old(h.ring), entries)
  {
    hide h.Valid, h.Entry, Layout, AfterCall, Raw, S.AfterEntry, S.AfterReturn;
    SameSize(h, entries);
    var s := c.site;
    var slot := FreeSlot(h.table.Values);
    RawOne(MemAlloc(0, s.comm, 0), s.padding);
    if c.SyncEntry? {
      h.HandleSyncEntry(s.id, s.now);
    } else {
      if s.id in h.starts {
        var r := S.MakeRecord(s.id, h.starts[s.id], s.now);
        RawOne(StreamSync(PidOf(s.id), s.comm, r.startTime, r.endTime, r.deltaNs), s.padding);
      }
      h.HandleSyncReturn(s.cpu, s.id, s.comm, s.reserved, s.padding, s.now, slot);
    }
  }

  method PerformOther(h: Handlers, c: HandlerCall, ghost entries: Entries)
    requires h.Valid() && Mirrors(h, entries) && Fireable(c, h.cpus) && (c.Ioctl? || c.ThreadExit?)
    modifies h
    ensures Performed(h, c, old(h.starts), old(h.ring), entries)
  {
    hide h.Valid, h.Entry, Layout, AfterCall, Raw;
    SameSize(h, entries);
    var s := c.site;
    var slot := FreeSlot(h.table.Values);
    RawOne(MemAlloc(0, s.comm, 0), s.padding);
    if c.Ioctl? {
      h.WatchdogIoctl(s.cpu, s.id, c.major, c.minor, s.now, slot);
    } else {
      h.HandleProcessExit(s.id);
    }
  }

  method Perform(h: Handlers, c: HandlerCall, ghost entries: Entries)
    requires h.Valid() && Mirrors(h, entries) && Fireable(c, h.cpus)
    modifies h
    ensures Performed(h, c, old(h.starts), old(h.ring), entries)
  {
    hide Performed, h.Valid, Fireable, Mirrors;
    match c
    case Launch(_, _) => PerformLaunch(h, c, entries);
    case Alloc(_, _) => PerformAlloc(h, c, entries);
    case Copy(_, _, _) => PerformCopy(h, c, entries);
    case SyncEntry(_) => PerformSync(h, c, entries);
    case SyncReturn(_) => PerformSync(h, c, entries);
    case Ioctl(_, _, _) => PerformOther(h, c, entries);
    case ThreadExit(_) => PerformOther(h, c, entries);
  }

  lemma PerformedIsRan(h: Handlers, c: HandlerCall, calls: seq<HandlerCall>)
    requires Performed(h, c, StartsAll(calls), Raw(SubmitsAll(calls)), EntriesAll(calls, h.cpus))
    ensures Ran(h, calls + [c])
  {
    hide h.Valid, h.Entry, Raw, Submits, StartsAfter, EntryAfter, EntriesAfter, Hitting;
    hide StartsAll, SubmitsAll, EntriesAll;
    OneMoreCall(calls, c);
    var entries, hit := EntriesAll(calls, h.cpus), Hitting(StartsAll(calls), c);
    forall q ensures h.Entry(q) == EntryOf(EntriesAfter(entries, c, h.cpus, hit), q) {
      OneEntryAfter(entries, c, h.cpus, hit, q);
    }
  }

  method Invoke(h: Handlers, c: HandlerCall, ghost calls: seq<HandlerCall>)
    requires Ran(h, calls) && Fireable(c, h.cpus)
    modifies h
    ensures Ran(h, calls + [c])
  {
    hide h.Valid, Fireable, Performed, Mirrors, StartsAll, SubmitsAll, EntriesAll, Raw;
    Perform(h, c, EntriesAll(calls, h.cpus));
    PerformedIsRan(h, c, calls);
  }

  lemma OneEntryAfter(entries: Entries, c: HandlerCall, cpus: nat, hit: Option<HitKind>, q: U32)
    ensures EntryOf(EntriesAfter(entries, c, cpus, hit), q)
         == EntryAfter(EntryOf(entries, q), q, |entries| < 1024, cpus, c, hit)
  {
    hide AfterCall;
  }

  // Any sequence of handler calls leaves exactly its submissions in the ring,
  // its pending starts in the table, and its hits in the entries.
  method InvokeAll(h: Handlers, calls: seq<HandlerCall>)
    requires h.Valid() && h.table == map[] && h.starts == map[] && h.ring == []
    requires forall i :: 0 <= i < |calls| ==> Fireable(calls[i], h.cpus)
    modifies h
    ensures h.Valid() && h.starts == StartsAll(calls) && h.ring == Raw(SubmitsAll(calls))
    ensures forall q :: h.Entry(q) == EntryOf(EntriesAll(calls, h.cpus), q)
  {
    hide Fireable, h.Valid, StartsAll, SubmitsAll, EntriesAll, Raw;
    NothingCounted(h);
    for i := 0 to |calls|
      invariant Ran(h, calls[..i])
    {
      hide Ran;
      Invoke(h, calls[i], calls[..i]);
      assert calls[..i + 1] == calls[..i] + [calls[i]];
    }
    assert calls[..|calls|] == calls;
  }

  lemma NothingCounted(h: Handlers)
    requires h.Valid() && h.table == map[] && h.starts == map[] && h.ring == []
    ensures Ran(h, [])
  {
  }

  // ---- the state machine ------------------------------------------------------------

  // Reserving and submitting the records one after the other, the ring having n
  // slots before.
  function Produce(n: nat, ss: seq<Submission>): seq<T.Action>
    decreases |ss|
  {
    if ss == [] then []
    else [T.Reserve, T.Submit(n, ss[0].event, ss[0].padding)] + Produce(n + 1, ss[1..])
  }

  function Slots(ss: seq<Submission>): seq<T.Slot> {
    seq(|ss|, i requires 0 <= i < |ss| => T.Submitted(Layout(ss[i].event, ss[i].padding)))
  }

  // It is a run of the state machine whose ring and history of submissions are
  // those of the handlers, so everything proved about its runs starts at the
  // handlers.
  lemma {:induction false} ProducersAreHandlers(s: T.State, ss: seq<Submission>, duration: int)
    requires forall i :: 0 <= i < |ss| ==> ss[i].padding.Valid()
    ensures T.Allowed(s, Produce(|s.ring|, ss), duration)
    ensures T.After(s, Produce(|s.ring|, ss), duration)
         == s.(ring := s.ring + Slots(ss), submitted := s.submitted + EventsOf(ss))
    decreases |ss|
  {
    hide Layout;
    var run := Produce(|s.ring|, ss);
    if ss == [] {
      assert s.ring + Slots(ss) == s.ring && s.submitted + EventsOf(ss) == s.submitted;
    } else {
      var x := ss[0];
      var s1 := T.Next(s, T.Reserve, duration);
      var s2 := T.Next(s1, run[1], duration);
      ProducersAreHandlers(s2, ss[1..], duration);
      assert run[1..][1..] == Produce(|s2.ring|, ss[1..]);
      assert s2.ring + Slots(ss[1..]) == s.ring + Slots(ss);
      assert s2.submitted + EventsOf(ss[1..]) == s.submitted + EventsOf(ss);
    }
  }

  lemma {:induction false} SubmissionsAreValid(calls: seq<HandlerCall>, cpus: nat)
    requires forall i :: 0 <= i < |calls| ==> Fireable(calls[i], cpus)
    ensures forall i :: 0 <= i < |SubmitsAll(calls)| ==> SubmitsAll(calls)[i].padding.Valid()
  {
    if calls != [] {
      SubmissionsAreValid(calls[..|calls| - 1], cpus);
    }
  }

  lemma {:induction false} RunOn(s: T.State, a: seq<T.Action>, b: seq<T.Action>, duration: int)
    requires T.Allowed(s, a, duration) && T.Allowed(T.After(s, a, duration), b, duration)
    ensures T.Allowed(s, a + b, duration)
    ensures T.After(s, a + b, duration) == T.After(T.After(s, a, duration), b, duration)
    decreases |a|
  {
    hide T.Next, T.Enabled;
    if a == [] {
      assert a + b == b;
    } else {
      RunOn(T.Next(s, a[0], duration), a[1..], b, duration);
      assert (a + b)[1..] == a[1..] + b;
    }
  }

  ghost predicate NoSubmit(run: seq<T.Action>) {
    forall i :: 0 <= i < |run| ==> !run[i].Submit?
  }

  lemma {:induction false} NothingSubmitted(s: T.State, run: seq<T.Action>, duration: int)
    requires T.Allowed(s, run, duration) && NoSubmit(run)
    ensures T.After(s, run, duration).submitted == s.submitted
    decreases |run|
  {
    hide T.Enabled;
    if run != [] {
      NothingSubmitted(T.Next(s, run[0], duration), run[1..], duration);
    }
  }

  // Conservation from the handlers on: after any sequence of handler calls and
  // whatever reader, collectors and flushes then do, each process's records of
  // each kind are in the ring, in the reader's hand, in the live window or in
  // reported ones.
  lemma HandlerRecordsAccountedFor(calls: seq<HandlerCall>, cpus: nat, start: int, run: seq<T.Action>, duration: int,
                                   pid: U32, k: Kind)
    requires forall i :: 0 <= i < |calls| ==> Fireable(calls[i], cpus)
    requires var ss := SubmitsAll(calls);
             && NoSubmit(run)
             && T.Allowed(T.Init(start).(ring := Slots(ss), submitted := EventsOf(ss)), run, duration)
    ensures var ss := SubmitsAll(calls);
            var s := T.After(T.Init(start).(ring := Slots(ss), submitted := EventsOf(ss)), run, duration);
            G.CountIn(EventsOf(ss), pid, k)
              == G.CountIn(T.InRing(s.ring), pid, k) + G.CountIn(T.InHand(s.hand), pid, k)
                 + G.LiveCount(s.lives, pid, k) + G.ReportedCount(s.reports, pid, k)
  {
    hide SubmitsAll, T.Allowed, T.After, G.CountIn;
    var ss, s0 := SubmitsAll(calls), T.Init(start);
    var filled := s0.(ring := Slots(ss), submitted := EventsOf(ss));
    SubmissionsAreValid(calls, cpus);
    ProducersAreHandlers(s0, ss, duration);
    assert s0.ring + Slots(ss) == Slots(ss) && s0.submitted + EventsOf(ss) == EventsOf(ss);
    RunOn(s0, Produce(0, ss), run, duration);
    NothingSubmitted(filled, run, duration);
    G.EveryRecordAccountedFor(start, Produce(0, ss) + run, duration, pid, k);
  }

  // ---- hits and records ---------------------------------------------------------

  function CountFor(ss: seq<Submission>, pid: U32): nat {
    if ss == [] then 0 else CountFor(ss[..|ss| - 1], pid) + if ss[|ss| - 1].event.pid == pid then 1 else 0
  }

  lemma CountForOne(ss: seq<Submission>, more: seq<Submission>, pid: U32)
    requires |more| <= 1
    ensures CountFor(ss + more, pid) == CountFor(ss, pid) + if more != [] && more[0].event.pid == pid then 1 else 0
  {
    if more == [] {
      assert ss + more == ss;
    } else {
      assert (ss + more)[..|ss|] == ss;
    }
  }

  function CallPids(calls: seq<HandlerCall>): set<U32> {
    set i | 0 <= i < |calls| :: PidOf(calls[i].site.id)
  }

  lemma CallPidsAppend(calls: seq<HandlerCall>, c: HandlerCall)
    ensures CallPids(calls + [c]) == CallPids(calls) + {PidOf(c.site.id)}
  {
    var longer := calls + [c];
    forall p | p in CallPids(calls) ensures p in CallPids(longer) {
      var i :| 0 <= i < |calls| && PidOf(calls[i].site.id) == p;
      assert longer[i] == calls[i];
    }
    assert longer[|calls|] == c && PidOf(longer[|calls|].site.id) in CallPids(longer);
    forall p | p in CallPids(longer) ensures p in CallPids(calls) + {PidOf(c.site.id)} {
      var i :| 0 <= i < |longer| && PidOf(longer[i].site.id) == p;
      if i < |calls| { assert longer[i] == calls[i]; }
    }
  }

  ghost predicate HitsOf(entry: Option<seq<Cell>>, n: nat, cpus: nat) {
    match entry
    case Some(cells) => |cells| == cpus && Wrap64(SumOf(cells, UprobeHit)) == Wrap64(n)
    case None => n == 0
  }

  // The uprobe hits of each entry are the records submitted for its process.
  ghost predicate HitsAreRecords(entries: Entries, ss: seq<Submission>, cpus: nat) {
    forall pid :: HitsOf(EntryOf(entries, pid), CountFor(ss, pid), cpus)
  }

  lemma CallCountsOnce(entry: Option<seq<Cell>>, n: nat, room: bool, cpus: nat, cpu: nat, kind: HitKind, now: U64)
    requires HitsOf(entry, n, cpus) && cpu < cpus && now > 0 && (entry.Some? || room)
    ensures AfterCall(entry, room, cpus, cpu, kind, now).Some?
    ensures HitsOf(AfterCall(entry, room, cpus, cpu, kind, now), n + if kind == UprobeHit then 1 else 0, cpus)
  {
    hide SumOf, AfterCall, Wrap64;
    OneCallOneHit(entry, room, cpus, cpu, kind, now, UprobeHit);
    CallKeepsSize(entry, room, cpus, cpu, kind, now);
    if kind == UprobeHit {
      Wrap64Add(if entry.Some? then SumOf(entry.value, UprobeHit) else 0, 1);
      Wrap64Add(n, 1);
    }
  }

  lemma CallKeepsSize(entry: Option<seq<Cell>>, room: bool, cpus: nat, cpu: nat, kind: HitKind, now: U64)
    requires entry.Some? ==> |entry.value| == cpus
    ensures var after := AfterCall(entry, room, cpus, cpu, kind, now);
            after.Some? ==> |after.value| == cpus
  {
  }

  lemma CountedOnce(entries: Entries, ss: seq<Submission>, more: seq<Submission>, c: HandlerCall, cpus: nat,
                    kind: HitKind)
    requires HitsAreRecords(entries, ss, cpus) && c.site.cpu < cpus && c.site.now > 0 && !c.ThreadExit?
    requires PidOf(c.site.id) in entries || |entries| < 1024
    requires |more| == (if kind == UprobeHit then 1 else 0)
    requires more != [] ==> more[0].event.pid == PidOf(c.site.id)
    ensures HitsAreRecords(EntriesAfter(entries, c, cpus, Some(kind)), ss + more, cpus)
    ensures EntriesAfter(entries, c, cpus, Some(kind)).Keys == entries.Keys + {PidOf(c.site.id)}
  {
    hide HitsOf, CountFor, AfterCall;
    var p := PidOf(c.site.id);
    CallCountsOnce(EntryOf(entries, p), CountFor(ss, p), |entries| < 1024, cpus, c.site.cpu, kind, c.site.now);
    var after := EntriesAfter(entries, c, cpus, Some(kind));
    forall pid ensures HitsOf(EntryOf(after, pid), CountFor(ss + more, pid), cpus) {
      CountForOne(ss, more, pid);
      OneEntryAfter(entries, c, cpus, Some(kind), pid);
      assert HitsOf(EntryOf(entries, pid), CountFor(ss, pid), cpus);
    }
  }

  lemma NothingHit(entries: Entries, c: HandlerCall, cpus: nat)
    requires !c.ThreadExit?
    ensures EntriesAfter(entries, c, cpus, None) == entries
  {
  }

  lemma SubmitsOne(starts: S.Starts, c: HandlerCall)
    ensures |Submits(starts, c)| <= 1
    ensures Submits(starts, c) != [] ==>
              Submits(starts, c)[0].event.pid == PidOf(c.site.id) && !c.Ioctl? && !c.ThreadExit?
  {
  }

  lemma NoCalls(cpus: nat)
    ensures HitsAreRecords(EntriesAll([], cpus), SubmitsAll([]), cpus) && EntriesAll([], cpus).Keys <= CallPids([])
  {
  }

  // The watchdog and the telemetry see the same library calls: without exits and
  // with at most 1024 processes, each entry's uprobe hits are, modulo 2^64, the
  // records its process has submitted.
  lemma {:induction false} UprobeHitsAreRecords(calls: seq<HandlerCall>, cpus: nat)
    requires forall i :: 0 <= i < |calls| ==> Fireable(calls[i], cpus) && !calls[i].ThreadExit?
    requires |CallPids(calls)| <= 1024
    ensures HitsAreRecords(EntriesAll(calls, cpus), SubmitsAll(calls), cpus)
    ensures EntriesAll(calls, cpus).Keys <= CallPids(calls)
  {
    hide EntriesAll, SubmitsAll, StartsAll, CallPids, HitsAreRecords, EntriesAfter, Hitting, Submits, Fireable;
    if calls == [] {
      NoCalls(cpus);
    } else {
      var init, c := calls[..|calls| - 1], calls[|calls| - 1];
      assert calls == init + [c];
      CallPidsAppend(init, c);
      SubsetSize(CallPids(init), CallPids(calls));
      UprobeHitsAreRecords(init, cpus);
      OneMoreCall(init, c);
      OneCallCounts(EntriesAll(init, cpus), SubmitsAll(init), StartsAll(init), c, CallPids(init), cpus);
    }
  }

  lemma OneCallCounts(entries: Entries, ss: seq<Submission>, starts: S.Starts, c: HandlerCall, pids: set<U32>,
                      cpus: nat)
    requires HitsAreRecords(entries, ss, cpus) && Fireable(c, cpus) && !c.ThreadExit?
    requires entries.Keys <= pids && |pids + {PidOf(c.site.id)}| <= 1024
    ensures HitsAreRecords(EntriesAfter(entries, c, cpus, Hitting(starts, c)), ss + Submits(starts, c), cpus)
    ensures EntriesAfter(entries, c, cpus, Hitting(starts, c)).Keys <= pids + {PidOf(c.site.id)}
  {
    hide HitsAreRecords, EntriesAfter, Submits;
    var p, more, hit := PidOf(c.site.id), Submits(starts, c), Hitting(starts, c);
    SubmitsOne(starts, c);
    if p !in entries {
      SubsetSize(entries.Keys + {p}, pids + {p});
      assert |entries.Keys + {p}| == |entries.Keys| + 1;
    }
    if hit == None {
      NothingHit(entries, c, cpus);
      assert ss + [] == ss;
    } else {
      CountedOnce(entries, ss, more, c, cpus, hit.value);
    }
  }
}
