// Durations of blocking synchronisation calls: entry and return probes share a
// bounded table keyed by thread id.
module SyncTracer {
  import opened Wrappers
  import opened Arith
  import opened Orders

  const MAX_ENTRIES: nat := 1024

  // Thread id to the start time of its pending call.
  type Starts = map<U64, U64>

  datatype Probe =
    | Entry(tid: U64, ts: U64)
    | Return(tid: U64, ts: U64, reserved: bool)

  datatype SyncRecord = SyncRecord(tid: U64, startTime: U64, endTime: U64, deltaNs: U64)

  function MakeRecord(tid: U64, start: U64, end: U64): SyncRecord {
    SyncRecord(tid, start, end, Sub64(end, start))
  }

  // A hash update fails when it needs a new element and the table is full.
  function AfterEntry(starts: Starts, tid: U64, ts: U64): Starts {
    if tid in starts || |starts| < MAX_ENTRIES then starts[tid := ts] else starts
  }

  predicate Emits(starts: Starts, tid: U64, reserved: bool) {
    tid in starts && reserved
  }

  function AfterReturn(starts: Starts, tid: U64, reserved: bool): Starts {
    if Emits(starts, tid, reserved) then starts - {tid} else starts
  }

  function AfterProbe(starts: Starts, p: Probe): Starts {
    match p
    case Entry(tid, ts) => AfterEntry(starts, tid, ts)
    case Return(tid, _, reserved) => AfterReturn(starts, tid, reserved)
  }

  function EmittedBy(starts: Starts, p: Probe): seq<SyncRecord> {
    match p
    case Entry(_, _) => []
    case Return(tid, ts, reserved) =>
      if Emits(starts, tid, reserved) then [MakeRecord(tid, starts[tid], ts)] else []
  }

  // The table and the records after a trace, starting from an empty table.
  function Table(trace: seq<Probe>): Starts {
    if trace == [] then map[] else AfterProbe(Table(trace[..|trace| - 1]), trace[|trace| - 1])
  }

  function Records(trace: seq<Probe>): seq<SyncRecord> {
    if trace == [] then []
    else
      var init := trace[..|trace| - 1];
      Records(init) + EmittedBy(Table(init), trace[|trace| - 1])
  }

  // ---- freshness, whatever fails ---------------------------------------------

  // The time of tid's most recent entry probe.
  function LastEntry(trace: seq<Probe>, tid: U64): Option<U64> {
    if trace == [] then None
    else
      var p := trace[|trace| - 1];
      if p.Entry? && p.tid == tid then Some(p.ts) else LastEntry(trace[..|trace| - 1], tid)
  }

  // Each thread's probes fire in time order.
  ghost predicate InTimeOrder(trace: seq<Probe>) {
    forall i, j :: 0 <= i < j < |trace| && trace[i].tid == trace[j].tid ==> trace[i].ts <= trace[j].ts
  }

  // In every reachable state, even with a full table and failed reservations
  // that skip the delete, a stored start is its thread's latest entry.
  lemma {:induction false} StartsAreFresh(trace: seq<Probe>)
    ensures |Table(trace)| <= 1024
    ensures forall tid :: tid in Table(trace) ==> LastEntry(trace, tid) == Some(Table(trace)[tid])
  {
    if trace != [] {
      var init, p := trace[..|trace| - 1], trace[|trace| - 1];
      StartsAreFresh(init);
      TableSize(Table(init), p);
    }
  }

  lemma TableSize(starts: Starts, p: Probe)
    requires |starts| <= MAX_ENTRIES
    ensures |AfterProbe(starts, p)| <= MAX_ENTRIES
  {
    match p
    case Entry(tid, ts) =>
      if tid in starts {
        assert starts[tid := ts].Keys == starts.Keys;
      }
    case Return(tid, _, _) =>
      assert (starts - {tid}).Keys == starts.Keys - {tid};
      assert |(starts - {tid}).Keys| <= |starts.Keys|;
  }

  lemma {:induction false} LastEntryTime(trace: seq<Probe>, tid: U64)
    requires LastEntry(trace, tid).Some?
    ensures exists i :: 0 <= i < |trace| && trace[i] == Entry(tid, LastEntry(trace, tid).value)
  {
    var init, p := trace[..|trace| - 1], trace[|trace| - 1];
    if !(p.Entry? && p.tid == tid) {
      LastEntryTime(init, tid);
      var i :| 0 <= i < |init| && init[i] == Entry(tid, LastEntry(init, tid).value);
      assert trace[i] == init[i];
    } else {
      assert trace[|trace| - 1] == Entry(tid, p.ts);
    }
  }

  // Hence every record runs from its thread's latest entry to its return, with
  // a duration that never wraps.
  lemma {:induction false} RecordsNeverWrap(trace: seq<Probe>)
    requires InTimeOrder(trace)
    ensures forall r :: r in Records(trace) ==> r.startTime <= r.endTime && r.deltaNs == r.endTime - r.startTime
  {
    if trace != [] {
      var init, p := trace[..|trace| - 1], trace[|trace| - 1];
      assert InTimeOrder(init) by {
        forall i, j | 0 <= i < j < |init| && init[i].tid == init[j].tid ensures init[i].ts <= init[j].ts {
          assert trace[i] == init[i] && trace[j] == init[j];
        }
      }
      RecordsNeverWrap(init);
      StartsAreFresh(init);
      if EmittedBy(Table(init), p) != [] {
        LastEntryTime(init, p.tid);
        var i :| 0 <= i < |init| && init[i] == Entry(p.tid, Table(init)[p.tid]);
        assert trace[i] == init[i];
      }
    }
  }

  // ---- one thread at a time ----------------------------------------------------

  // What becomes of a thread's probe: an entry is stored unless the table turns
  // it away, a return gets ring space or not.
  datatype Outcome =
    | Entered(ts: U64, stored: bool)
    | Left(ts: U64, reserved: bool)

  function OutcomeOf(starts: Starts, p: Probe): Outcome {
    match p
    case Entry(tid, ts) => Entered(ts, tid in starts || |starts| < MAX_ENTRIES)
    case Return(_, ts, reserved) => Left(ts, reserved)
  }

  // The thread's own probes, with their outcomes.
  function Outcomes(trace: seq<Probe>, tid: U64): seq<Outcome> {
    if trace == [] then []
    else
      var init, p := trace[..|trace| - 1], trace[|trace| - 1];
      Outcomes(init, tid) + if p.tid == tid then [OutcomeOf(Table(init), p)] else []
  }

  function RecordsOf(records: seq<SyncRecord>, tid: U64): seq<SyncRecord> {
    if records == [] then []
    else
      var r := records[|records| - 1];
      RecordsOf(records[..|records| - 1], tid) + if r.tid == tid then [r] else []
  }

  // What one thread's probes do, given its pending start.
  function Pending(armed: Option<U64>, os: seq<Outcome>): Option<U64> {
    if os == [] then armed
    else
      match os[|os| - 1]
      case Entered(ts, stored) => if stored then Some(ts) else Pending(armed, os[..|os| - 1])
      case Left(_, reserved) => if reserved then None else Pending(armed, os[..|os| - 1])
  }

  function Durations(tid: U64, armed: Option<U64>, os: seq<Outcome>): seq<SyncRecord> {
    if os == [] then []
    else
      var init, o := os[..|os| - 1], os[|os| - 1];
      var start := Pending(armed, init);
      Durations(tid, armed, init)
      + if o.Left? && o.reserved && start.Some? then [MakeRecord(tid, start.value, o.ts)] else []
  }

  function Lookup(starts: Starts, tid: U64): Option<U64> {
    if tid in starts then Some(starts[tid]) else None
  }

  lemma RecordsOfAppend(rs: seq<SyncRecord>, r: SyncRecord, tid: U64)
    ensures RecordsOf(rs + [r], tid) == RecordsOf(rs, tid) + if r.tid == tid then [r] else []
    ensures r.tid != tid ==> RecordsOf(rs + [r], tid) == RecordsOf(rs, tid)
  {
    assert (rs + [r])[..|rs|] == rs;
    assert RecordsOf(rs, tid) + [] == RecordsOf(rs, tid);
  }

  lemma OutcomesLast(trace: seq<Probe>, tid: U64)
    requires trace != []
    ensures var init, p := trace[..|trace| - 1], trace[|trace| - 1];
            Outcomes(trace, tid) ==
              if p.tid == tid then Outcomes(init, tid) + [OutcomeOf(Table(init), p)] else Outcomes(init, tid)
  {
  }

  lemma PendingAppend(tid: U64, armed: Option<U64>, os: seq<Outcome>, o: Outcome)
    ensures Pending(armed, os + [o]) == match o
                                        case Entered(ts, stored) => if stored then Some(ts) else Pending(armed, os)
                                        case Left(_, reserved) => if reserved then None else Pending(armed, os)
    ensures Durations(tid, armed, os + [o])
         == Durations(tid, armed, os)
            + if o.Left? && o.reserved && Pending(armed, os).Some?
              then [MakeRecord(tid, Pending(armed, os).value, o.ts)]
              else []
  {
    assert (os + [o])[..|os|] == os;
  }

  // Threads disturb one another only by filling the table: in any interleaving
  // of any number of threads, what the table does for one thread is what the
  // outcomes of its own probes decide.
  lemma {:induction false} ThreadsAreIndependent(trace: seq<Probe>, tid: U64)
    ensures Lookup(Table(trace), tid) == Pending(None, Outcomes(trace, tid))
    ensures RecordsOf(Records(trace), tid) == Durations(tid, None, Outcomes(trace, tid))
  {
    if trace != [] {
      var init, p := trace[..|trace| - 1], trace[|trace| - 1];
      ThreadsAreIndependent(init, tid);
      hide Outcomes, Pending, Durations, RecordsOf;
      OutcomesLast(trace, tid);
      PendingAppend(tid, None, Outcomes(init, tid), OutcomeOf(Table(init), p));
      if EmittedBy(Table(init), p) == [] {
        assert Records(init) + [] == Records(init);
      } else {
        RecordsOfAppend(Records(init), MakeRecord(p.tid, Table(init)[p.tid], p.ts), tid);
      }
    }
  }

  // ---- room in the table -------------------------------------------------------

  // No entry probe of the thread is turned away.
  ghost predicate FindsRoom(trace: seq<Probe>, tid: U64) {
    forall n :: 0 <= n < |trace| && trace[n].Entry? && trace[n].tid == tid ==>
      tid in Table(trace[..n]) || |Table(trace[..n])| < 1024
  }

  ghost predicate AllStored(os: seq<Outcome>) {
    forall i :: 0 <= i < |os| && os[i].Entered? ==> os[i].stored
  }

  lemma {:induction false} RoomMeansStored(trace: seq<Probe>, tid: U64)
    ensures FindsRoom(trace, tid) <==> AllStored(Outcomes(trace, tid))
  {
    if trace != [] {
      var init, p := trace[..|trace| - 1], trace[|trace| - 1];
      RoomMeansStored(init, tid);
      hide Table, Outcomes;
      OutcomesLast(trace, tid);
      assert forall n :: 0 <= n < |init| ==> init[n] == trace[n] && init[..n] == trace[..n];
      assert FindsRoom(trace, tid) <==>
          FindsRoom(init, tid) && (p.tid == tid && p.Entry? ==> OutcomeOf(Table(init), p).stored);
      if p.tid == tid {
        var os, o := Outcomes(init, tid), OutcomeOf(Table(init), p);
        assert (os + [o])[|os|] == o;
        assert forall i :: 0 <= i < |os| ==> (os + [o])[i] == os[i];
      }
    }
  }

  function Threads(trace: seq<Probe>): set<U64> {
    set i | 0 <= i < |trace| :: trace[i].tid
  }

  lemma {:induction false} TableKeys(trace: seq<Probe>)
    ensures Table(trace).Keys <= Threads(trace)
  {
    if trace != [] {
      var init, p := trace[..|trace| - 1], trace[|trace| - 1];
      TableKeys(init);
      assert p.tid in Threads(trace);
      forall tid | tid in Threads(init) ensures tid in Threads(trace) {
        var i :| 0 <= i < |init| && init[i].tid == tid;
        assert trace[i].tid == tid;
      }
    }
  }

  // With at most 1024 threads over the whole trace the table never turns an
  // entry away.
  lemma RoomForEveryThread(trace: seq<Probe>, tid: U64)
    requires |Threads(trace)| <= 1024
    ensures FindsRoom(trace, tid)
  {
    forall n | 0 <= n < |trace| && trace[n].Entry? && trace[n].tid == tid && tid !in Table(trace[..n])
      ensures |Table(trace[..n])| < 1024
    {
      TableKeys(trace[..n]);
      assert forall i :: 0 <= i < n ==> trace[..n][i] == trace[i];
      assert trace[n].tid in Threads(trace);
      assert Threads(trace[..n]) <= Threads(trace);
      SubsetSize(Table(trace[..n]).Keys + {tid}, Threads(trace));
    }
  }

  // ---- call trees ------------------------------------------------------------------

  // A synchronisation call: when it was entered and left, whether its start was
  // stored and its return got ring space, and the calls made inside it.
  datatype Call = Call(enter: U64, stored: bool, exit: U64, reserved: bool, inner: seq<Call>)

  function Probes(calls: seq<Call>): seq<Outcome> {
    if calls == [] then []
    else
      var c := calls[0];
      [Entered(c.enter, c.stored)] + Probes(c.inner) + [Left(c.exit, c.reserved)] + Probes(calls[1..])
  }

  // One record for each innermost call, in the order they return.
  function LeafRecords(tid: U64, calls: seq<Call>): seq<SyncRecord> {
    if calls == [] then []
    else
      var c := calls[0];
      (if c.inner == [] then [MakeRecord(tid, c.enter, c.exit)] else LeafRecords(tid, c.inner))
      + LeafRecords(tid, calls[1..])
  }

  // Every innermost call has its start stored and its return reserved.
  predicate LeavesServed(calls: seq<Call>) {
    calls == [] || (
      var c := calls[0];
      (if c.inner == [] then c.stored && c.reserved else LeavesServed(c.inner)) && LeavesServed(calls[1..]))
  }

  predicate LeavesReserved(calls: seq<Call>) {
    calls == [] || (
      var c := calls[0];
      (if c.inner == [] then c.reserved else LeavesReserved(c.inner)) && LeavesReserved(calls[1..]))
  }

  lemma {:induction false} PendingConcat(tid: U64, armed: Option<U64>, a: seq<Outcome>, b: seq<Outcome>)
    ensures Pending(armed, a + b) == Pending(Pending(armed, a), b)
    ensures Durations(tid, armed, a + b) == Durations(tid, armed, a) + Durations(tid, Pending(armed, a), b)
  {
    hide Pending, Durations, MakeRecord;
    var middle := Pending(armed, a);
    if b == [] {
      assert a + b == a;
      NothingPending(tid, middle);
    } else {
      var b', o := b[..|b| - 1], b[|b| - 1];
      assert b == b' + [o];
      PendingConcat(tid, armed, a, b');
      PendingAppend(tid, middle, b', o);
      assert a + b == (a + b') + [o];
      PendingAppend(tid, armed, a + b', o);
    }
  }

  lemma NothingPending(tid: U64, armed: Option<U64>)
    ensures Pending(armed, []) == armed && Durations(tid, armed, []) == []
  {
  }

  lemma OneOutcome(tid: U64, armed: Option<U64>, o: Outcome)
    ensures Pending(armed, [o]) == match o
                                   case Entered(ts, stored) => if stored then Some(ts) else armed
                                   case Left(_, reserved) => if reserved then None else armed
    ensures Durations(tid, armed, [o])
         == if o.Left? && o.reserved && armed.Some? then [MakeRecord(tid, armed.value, o.ts)] else []
  {
    assert [o][..0] == [];
  }

  lemma OneCall(tid: U64, c: Call, inner: seq<Outcome>, armed: Option<U64>)
    ensures var os := [Entered(c.enter, c.stored)] + inner + [Left(c.exit, c.reserved)];
            var begun := if c.stored then Some(c.enter) else armed;
            var start := Pending(begun, inner);
            && Pending(armed, os) == (if c.reserved then None else start)
            && Durations(tid, armed, os) == Durations(tid, begun, inner)
               + if c.reserved && start.Some? then [MakeRecord(tid, start.value, c.exit)] else []
  {
    hide Pending, Durations, MakeRecord;
    var e, o := [Entered(c.enter, c.stored)], Left(c.exit, c.reserved);
    PendingAppend(tid, armed, e + inner, o);
    PendingConcat(tid, armed, e, inner);
    OneOutcome(tid, armed, e[0]);
  }

  lemma TreeUnfold(tid: U64, calls: seq<Call>)
    requires calls != []
    ensures var c := calls[0];
            && (LeavesServed(calls) <==>
                  LeavesServed(c.inner) && LeavesServed(calls[1..]) && (c.inner == [] ==> c.stored && c.reserved))
            && Probes(calls) == [Entered(c.enter, c.stored)] + Probes(c.inner) + [Left(c.exit, c.reserved)]
                                + Probes(calls[1..])
            && LeafRecords(tid, calls) == (if c.inner == [] then [MakeRecord(tid, c.enter, c.exit)]
                                           else LeafRecords(tid, c.inner)) + LeafRecords(tid, calls[1..])
    ensures LeafRecords(tid, []) == []
  {
  }

  lemma {:induction false} TreeEmitsLeaves(tid: U64, calls: seq<Call>, armed: Option<U64>)
    requires LeavesServed(calls)
    ensures Pending(armed, Probes(calls)) == if calls == [] then armed else None
    ensures Durations(tid, armed, Probes(calls)) == LeafRecords(tid, calls)
  {
    hide Pending, Durations, MakeRecord;
    if calls == [] {
      NothingPending(tid, armed);
    } else {
      hide Probes, LeafRecords, LeavesServed;
      TreeUnfold(tid, calls);
      var c := calls[0];
      var inner, rest := Probes(c.inner), Probes(calls[1..]);
      TreeEmitsLeaves(tid, c.inner, if c.stored then Some(c.enter) else armed);
      TreeEmitsLeaves(tid, calls[1..], None);
      OneCall(tid, c, inner, armed);
      PendingConcat(tid, armed, [Entered(c.enter, c.stored)] + inner + [Left(c.exit, c.reserved)], rest);
    }
  }

  // Every record runs from a stored entry to a return with a reservation.
  lemma {:induction false} DurationEnds(tid: U64, armed: Option<U64>, os: seq<Outcome>, r: SyncRecord)
    requires r in Durations(tid, armed, os)
    ensures Left(r.endTime, true) in os
    ensures armed == Some(r.startTime) || Entered(r.startTime, true) in os
  {
    if os != [] {
      var init, o := os[..|os| - 1], os[|os| - 1];
      assert forall x :: x in init ==> x in os;
      if r in Durations(tid, armed, init) {
        DurationEnds(tid, armed, init, r);
      } else {
        PendingStart(armed, init);
        assert o in os;
      }
    }
  }

  lemma {:induction false} PendingStart(armed: Option<U64>, os: seq<Outcome>)
    ensures var start := Pending(armed, os);
            start.Some? ==> armed == start || Entered(start.value, true) in os
  {
    if os != [] {
      PendingStart(armed, os[..|os| - 1]);
      assert os[|os| - 1] in os && forall x :: x in os[..|os| - 1] ==> x in os;
    }
  }

  lemma NoProbes()
    ensures Probes([]) == []
  {
  }

  lemma RecordTimes(tid: U64, start: U64, end: U64)
    ensures MakeRecord(tid, start, end).startTime == start && MakeRecord(tid, start, end).endTime == end
  {
  }

  // A leaf that was not served: its failing outcome and its record.
  lemma {:induction false} UnservedLeaf(tid: U64, calls: seq<Call>) returns (o: Outcome, r: SyncRecord)
    requires !LeavesServed(calls)
    ensures o in Probes(calls) && r in LeafRecords(tid, calls)
    ensures o == Left(r.endTime, false) || o == Entered(r.startTime, false)
  {
    if calls != [] {
      TreeUnfold(tid, calls);
    }
    var c := calls[0];
    hide Probes, LeafRecords, LeavesServed, MakeRecord;
    if c.inner == [] && !(c.stored && c.reserved) {
      NoProbes();
      r := MakeRecord(tid, c.enter, c.exit);
      o := if c.reserved then Entered(c.enter, c.stored) else Left(c.exit, c.reserved);
      RecordTimes(tid, c.enter, c.exit);
    } else if c.inner != [] && !LeavesServed(c.inner) {
      o, r := UnservedLeaf(tid, c.inner);
    } else {
      o, r := UnservedLeaf(tid, calls[1..]);
    }
  }

  ghost predicate DistinctTimes(os: seq<Outcome>) {
    forall i, j :: 0 <= i < j < |os| ==> os[i].ts != os[j].ts
  }

  lemma SameTimeSameOutcome(os: seq<Outcome>, a: Outcome, b: Outcome)
    requires DistinctTimes(os) && a in os && b in os && a.ts == b.ts
    ensures a == b
  {
    var i :| 0 <= i < |os| && os[i] == a;
    var j :| 0 <= j < |os| && os[j] == b;
    assert i == j;
  }

  lemma OnlyServedLeavesAreReported(tid: U64, calls: seq<Call>)
    requires DistinctTimes(Probes(calls)) && !LeavesServed(calls)
    ensures Durations(tid, None, Probes(calls)) != LeafRecords(tid, calls)
  {
    hide Probes, Durations, LeafRecords, LeavesServed, DistinctTimes;
    var os := Probes(calls);
    var o, r := UnservedLeaf(tid, calls);
    if r in Durations(tid, None, os) {
      DurationEnds(tid, None, os, r);
      SameTimeSameOutcome(os, o, if o.Left? then Left(r.endTime, true) else Entered(r.startTime, true));
    }
  }

  // The records of a thread whose calls nest properly are exactly its leaf
  // calls, each with its own times, if every leaf found room in the table and
  // in the ring; and, its probes having distinct times, only then. The other
  // threads may do anything, and calls that are not leaves may fail.
  lemma EmittedRecordsAreTheLeaves(trace: seq<Probe>, tid: U64, calls: seq<Call>)
    requires Outcomes(trace, tid) == Probes(calls)
    ensures LeavesServed(calls) ==> RecordsOf(Records(trace), tid) == LeafRecords(tid, calls) && tid !in Table(trace)
    ensures DistinctTimes(Probes(calls)) ==>
              (RecordsOf(Records(trace), tid) == LeafRecords(tid, calls) <==> LeavesServed(calls))
  {
    hide Outcomes, Records, Table, RecordsOf, Probes, LeafRecords, Durations, LeavesServed, DistinctTimes;
    ThreadsAreIndependent(trace, tid);
    if LeavesServed(calls) {
      TreeEmitsLeaves(tid, calls, None);
      NothingPending(tid, None);
      if calls == [] {
        NoProbes();
      }
    } else if DistinctTimes(Probes(calls)) {
      OnlyServedLeavesAreReported(tid, calls);
    }
  }

  lemma {:induction false} StoredLeavesNeedReservations(calls: seq<Call>)
    requires AllStored(Probes(calls))
    ensures LeavesServed(calls) <==> LeavesReserved(calls)
  {
    if calls != [] {
      var c := calls[0];
      var enter, inner, leave, rest :=
        [Entered(c.enter, c.stored)], Probes(c.inner), [Left(c.exit, c.reserved)], Probes(calls[1..]);
      assert Probes(calls) == enter + inner + leave + rest;
      hide Probes, AllStored;
      assert enter + inner + leave + rest == enter + (inner + (leave + rest));
      StoredParts(enter, inner + (leave + rest));
      StoredParts(inner, leave + rest);
      StoredParts(leave, rest);
      EnteredIsStored(c, enter);
      StoredLeavesNeedReservations(c.inner);
      StoredLeavesNeedReservations(calls[1..]);
    }
  }

  lemma StoredParts(a: seq<Outcome>, b: seq<Outcome>)
    requires AllStored(a + b)
    ensures AllStored(a) && AllStored(b)
  {
    assert forall i :: 0 <= i < |a| ==> (a + b)[i] == a[i];
    assert forall i :: 0 <= i < |b| ==> (a + b)[|a| + i] == b[i];
  }

  lemma EnteredIsStored(c: Call, os: seq<Outcome>)
    requires AllStored(os) && Entered(c.enter, c.stored) in os
    ensures c.stored
  {
  }

  // While the table turns none of the thread's entries away, as with at most
  // 1024 threads, only the leaves' reservations matter.
  lemma RoomyRecordsAreTheLeaves(trace: seq<Probe>, tid: U64, calls: seq<Call>)
    requires FindsRoom(trace, tid) && Outcomes(trace, tid) == Probes(calls)
    ensures LeavesReserved(calls) ==> RecordsOf(Records(trace), tid) == LeafRecords(tid, calls) && tid !in Table(trace)
    ensures DistinctTimes(Probes(calls)) ==>
              (RecordsOf(Records(trace), tid) == LeafRecords(tid, calls) <==> LeavesReserved(calls))
  {
    hide Outcomes, Records, Table, RecordsOf, Probes, LeafRecords;
    hide LeavesServed, LeavesReserved, DistinctTimes, FindsRoom, AllStored;
    RoomMeansStored(trace, tid);
    StoredLeavesNeedReservations(calls);
    EmittedRecordsAreTheLeaves(trace, tid, calls);
  }

  // ---- two leaves that are not served --------------------------------------------

  // When a leaf's reservation fails, its caller's return reports the leaf's
  // start with the caller's end: no call ran over that interval.
  lemma FailedReservationMixesCalls(tid: U64)
    ensures var calls := [Call(10, true, 40, true, [Call(20, true, 30, false, [])])];
            Durations(tid, None, Probes(calls)) == [MakeRecord(tid, 20, 40)]
  {
    var e, f, g, h := Entered(10, true), Entered(20, true), Left(30, false), Left(40, true);
    var leaf := [Call(20, true, 30, false, [])];
    assert Probes(leaf) == [f, g] by {
      assert leaf[1..] == [] && [f] + [] + [g] + [] == [f, g];
    }
    var calls := [Call(10, true, 40, true, leaf)];
    assert Probes(calls) == [e, f, g, h] by {
      assert calls[1..] == [] && [e] + [f, g] + [h] + [] == [e, f, g, h];
    }
    hide Pending, Durations;
    OneOutcome(tid, None, e);
    PendingAppend(tid, None, [e], f);
    PendingAppend(tid, None, [e, f], g);
    PendingAppend(tid, None, [e, f, g], h);
    assert [e] + [f] == [e, f] && [e, f] + [g] == [e, f, g] && [e, f, g] + [h] == [e, f, g, h];
  }

  // n threads, numbered from 1, are each inside a call.
  function Crowd(n: nat): seq<Probe>
    requires n < TWO_64
  {
    if n == 0 then [] else Crowd(n - 1) + [Entry(n, 0)]
  }

  lemma TraceAppend(trace: seq<Probe>, p: Probe)
    ensures Table(trace + [p]) == AfterProbe(Table(trace), p)
    ensures Records(trace + [p]) == Records(trace) + EmittedBy(Table(trace), p)
  {
    assert (trace + [p])[..|trace|] == trace;
  }

  // The table holds exactly n threads, all numbered up to n.
  ghost predicate Holds(starts: Starts, n: nat) {
    |starts| == n && forall tid :: tid in starts ==> 1 <= tid <= n
  }

  lemma NewThread(starts: Starts, n: U64)
    requires 0 < n <= 1024 && Holds(starts, n - 1)
    ensures Holds(AfterEntry(starts, n, 0), n)
  {
    assert starts[n := 0].Keys == starts.Keys + {n};
    assert |starts[n := 0].Keys| == |starts.Keys| + 1;
  }

  lemma NobodyYet()
    ensures Holds(Table([]), 0) && Records([]) == []
  {
  }

  lemma {:induction false} CrowdFillsTable(n: nat)
    requires n <= 1024
    ensures Holds(Table(Crowd(n)), n) && Records(Crowd(n)) == []
  {
    hide Table, Records, Holds, AfterEntry;
    if n == 0 {
      NobodyYet();
    } else {
      CrowdFillsTable(n - 1);
      TraceAppend(Crowd(n - 1), Entry(n, 0));
      NewThread(Table(Crowd(n - 1)), n);
    }
  }

  // With 1024 threads inside calls, another one's call goes unrecorded although
  // its return gets ring space.
  lemma FullTableLosesCalls()
    ensures Records(Crowd(1024) + [Entry(0, 20)] + [Return(0, 30, true)]) == []
  {
    var crowd, enter := Crowd(1024), Entry(0, 20);
    CrowdFillsTable(1024);
    TraceAppend(crowd, enter);
    TraceAppend(crowd + [enter], Return(0, 30, true));
  }
}
