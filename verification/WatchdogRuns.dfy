// More about whole runs of the watchdog: where every call goes, what the clocks
// have to do with alerts, and polls that read an entry cell by cell.
module WatchdogRuns {
  import opened Wrappers
  import opened Arith
  import opened Watchdog
  import opened WatchdogKernel
  import H = PidHistory

  // ---- every call leaves a hit of its own or is lost ------------------------------

  // The calls in a history, recorded or lost.
  function CallsIn(h: seq<H.PidEvent>, kind: HitKind): nat {
    if h == [] then 0 else CallsIn(h[..|h| - 1], kind) + if H.IsNote(h[|h| - 1], H.Call, kind) then 1 else 0
  }

  predicate IsOver(t: Task, pid: U32, kind: HitKind) {
    t.pid == pid && t.kind == kind && (t.pc == Counted || t.pc == Missed)
  }

  // The handlers for pid that have been through add_to_counter.
  function OverCalls(tasks: map<nat, Task>, pid: U32, kind: HitKind): set<nat> {
    set id | id in tasks && IsOver(tasks[id], pid, kind)
  }

  predicate IsTurnedAway(w: World, a: Action, pid: U32, kind: HitKind) {
    Fires(w, a) && !Reaches(a) && a.pid == pid && a.kind == kind
  }

  // The handlers for pid that never got there.
  function TurnedAway(w: World, run: seq<Action>, pid: U32, kind: HitKind): nat {
    if run == [] then 0
    else
      var init := run[..|run| - 1];
      TurnedAway(w, init, pid, kind) + if IsTurnedAway(After(w, init), run[|run| - 1], pid, kind) then 1 else 0
  }

  lemma OverUpdate(tasks: map<nat, Task>, id: nat, t: Task, pid: U32, kind: HitKind)
    requires id in tasks ==> !IsOver(tasks[id], pid, kind)
    ensures |OverCalls(tasks[id := t], pid, kind)|
         == |OverCalls(tasks, pid, kind)| + if IsOver(t, pid, kind) then 1 else 0
  {
    var before, after := OverCalls(tasks, pid, kind), OverCalls(tasks[id := t], pid, kind);
    if IsOver(t, pid, kind) {
      assert after == before + {id};
    } else {
      assert after == before;
    }
  }

  lemma CallStep(w: World, a: Action, pid: U32, kind: HitKind)
    requires Consistent(w)
    ensures var es := Effect(w, a, pid);
            |OverCalls(Next(w, a).tasks, pid, kind)| + (if IsTurnedAway(w, a, pid, kind) then 1 else 0)
              == |OverCalls(w.tasks, pid, kind)| + if es != [] && H.IsNote(es[0], H.Call, kind) then 1 else 0
  {
    hide OverCalls, Totals, Visit, Bump, H.FreshCells;
    match a
    case Run(id, slot) =>
      if id in w.tasks && RunTask(w, id, slot) != w {
        OverRun(w, id, slot, pid, kind);
      }
    case Start(id, cpu, p, k, _) =>
      if id !in w.tasks { OverUpdate(w.tasks, id, Task(cpu, p, k, Looking), pid, kind); }
    case _ =>
  }

  lemma OverRun(w: World, id: nat, slot: nat, pid: U32, kind: HitKind)
    requires Consistent(w) && id in w.tasks && RunTask(w, id, slot) != w
    ensures var es := Effect(w, Run(id, slot), pid);
            |OverCalls(RunTask(w, id, slot).tasks, pid, kind)|
              == |OverCalls(w.tasks, pid, kind)| + if es != [] && H.IsNote(es[0], H.Call, kind) then 1 else 0
  {
    hide OverCalls, Totals, Visit, Bump, H.FreshCells;
    var w' := RunTask(w, id, slot);
    assert w'.tasks == w.tasks[id := w'.tasks[id]];
    OverUpdate(w.tasks, id, w'.tasks[id], pid, kind);
  }

  lemma CallsInExtend(h: seq<H.PidEvent>, es: seq<H.PidEvent>, kind: HitKind)
    requires |es| <= 1
    ensures CallsIn(h + es, kind) == CallsIn(h, kind) + if es != [] && H.IsNote(es[0], H.Call, kind) then 1 else 0
  {
    if es == [] {
      assert h + es == h;
    } else {
      assert (h + es)[..|h|] == h && (h + es)[|h|] == es[0];
    }
  }

  // Over every run, deletions and reuse included: the calls of a process in its
  // history are exactly its handlers that went through add_to_counter and those
  // that were turned away before it.
  lemma {:induction false} EveryCallIsNoted(cpus: nat, start: U64, run: seq<Action>, pid: U32, kind: HitKind)
    requires start > 0
    ensures var w0 := Init(cpus, start);
            CallsIn(History(w0, run, pid), kind)
              == |OverCalls(After(w0, run).tasks, pid, kind)| + TurnedAway(w0, run, pid, kind)
  {
    hide Consistent, Next, Effect, IsTurnedAway, OverCalls, H.IsNote;
    if run == [] {
      NothingOver(pid, kind);
    } else {
      var w0, init, a := Init(cpus, start), run[..|run| - 1], run[|run| - 1];
      EveryCallIsNoted(cpus, start, init, pid, kind);
      RunsFollowHistories(cpus, start, init, pid);
      CallStep(After(w0, init), a, pid, kind);
      AtMostOneEffect(After(w0, init), a, pid);
      CallsInExtend(History(w0, init, pid), Effect(After(w0, init), a, pid), kind);
    }
  }

  lemma NothingOver(pid: U32, kind: HitKind)
    ensures OverCalls(map[], pid, kind) == {}
  {
  }

  // Without deletions no hit is stray.
  lemma {:induction false} NoStraysWithoutExits(cpus: nat, start: U64, run: seq<Action>, pid: U32, kind: HitKind)
    requires start > 0 && NoExit(run)
    ensures H.NotedSince(History(Init(cpus, start), run, pid), H.Stray, kind, cpus) == 0
  {
    hide Consistent, Settled, Next, Effect, H.StoredLast, H.IsNote;
    if run != [] {
      var w0, init, a := Init(cpus, start), run[..|run| - 1], run[|run| - 1];
      NoStraysWithoutExits(cpus, start, init, pid, kind);
      RunsFollowHistories(cpus, start, init, pid);
      HitsAreCalls(cpus, start, init, pid, kind);
      NoStrayStep(After(w0, init), a, pid, kind);
      AtMostOneEffect(After(w0, init), a, pid);
      var h, es := History(w0, init, pid), Effect(After(w0, init), a, pid);
      if es == [] {
        assert h + es == h;
      } else {
        assert (h + es)[..|h|] == h && (h + es)[|h|] == es[0];
      }
    }
  }

  lemma NoStrayStep(w: World, a: Action, pid: U32, kind: HitKind)
    requires Consistent(w) && Settled(w) && !a.Exit?
    ensures var es := Effect(w, a, pid);
            es != [] ==> !H.IsNote(es[0], H.Stray, kind)
  {
  }

  lemma AfterAppend(w: World, run: seq<Action>, a: Action)
    ensures After(w, run + [a]) == Next(After(w, run), a)
  {
    assert (run + [a])[..|run|] == run;
  }

  lemma {:induction false} AfterConcat(w: World, r: seq<Action>, s: seq<Action>)
    ensures After(w, r + s) == After(After(w, r), s)
  {
    hide Next;
    if s == [] {
      assert r + s == r;
    } else {
      AfterConcat(w, r, s[..|s| - 1]);
      assert (r + s)[..|r + s| - 1] == r + s[..|s| - 1];
    }
  }

  lemma AfterFour(w: World, a: Action, b: Action, c: Action, d: Action)
    ensures After(w, [a, b, c, d]) == Next(Next(Next(Next(w, a), b), c), d)
  {
    hide Next;
    AfterAppend(w, [], a);
    AfterAppend(w, [a], b);
    AfterAppend(w, [a, b], c);
    AfterAppend(w, [a, b, c], d);
    assert [] + [a] == [a] && [a] + [b] == [a, b] && [a, b] + [c] == [a, b, c] && [a, b, c] + [d] == [a, b, c, d];
  }

  lemma FirstFour(w: World, t: Task, e: Element)
    requires w == Init(1, 1) && t == Task(0, 1, IoctlHit, Bumping(0)) && e == Element(1, H.FreshCells(1, 0, 1))
    ensures Next(Next(Next(Next(w, Start(0, 0, 1, IoctlHit, true)), Run(0, 0)), Run(0, 0)), Run(0, 0))
         == w.(table := map[1 := 0], elems := map[0 := e], tasks := map[0 := t])
  {
    hide H.FreshCells;
  }

  lemma LastFour(w: World, t: Task, e: Element)
    requires w == Init(1, 1).(table := map[1 := 0], elems := map[0 := e], tasks := map[0 := t])
    requires t == Task(0, 1, IoctlHit, Bumping(0))
    ensures var w' := Next(Next(Next(Next(w, Exit(1)), Start(1, 0, 2, IoctlHit, true)), Run(1, 0)), Run(1, 0));
            w'.table == map[2 := 0] && 0 in w'.tasks && w'.tasks[0] == t
  {
    hide H.FreshCells;
    assert w.table - {1} == map[];
  }

  // Process 1's handler has found its element when a thread exits; the element
  // goes to process 2, where the handler's hit is counted.
  lemma HitsCanStray()
    ensures var run := [Start(0, 0, 1, IoctlHit, true), Run(0, 0), Run(0, 0), Run(0, 0)]
                       + [Exit(1), Start(1, 0, 2, IoctlHit, true), Run(1, 0), Run(1, 0)];
            var w := After(Init(1, 1), run);
            && Effect(w, Run(0, 0), 1) == [H.Lost(IoctlHit)]
            && Effect(w, Run(0, 0), 2) == [H.Hit(0, IoctlHit, false)]
  {
    hide After, Next, H.FreshCells;
    var w, t, e := Init(1, 1), Task(0, 1, IoctlHit, Bumping(0)), Element(1, H.FreshCells(1, 0, 1));
    FirstFour(w, t, e);
    var w' := w.(table := map[1 := 0], elems := map[0 := e], tasks := map[0 := t]);
    LastFour(w', t, e);
    AfterFour(w, Start(0, 0, 1, IoctlHit, true), Run(0, 0), Run(0, 0), Run(0, 0));
    AfterFour(w', Exit(1), Start(1, 0, 2, IoctlHit, true), Run(1, 0), Run(1, 0));
    AfterConcat(w, [Start(0, 0, 1, IoctlHit, true), Run(0, 0), Run(0, 0), Run(0, 0)],
                [Exit(1), Start(1, 0, 2, IoctlHit, true), Run(1, 0), Run(1, 0)]);
  }

  // ---- the two clocks --------------------------------------------------------------

  predicate IsPoll(a: Action, pid: U32) {
    a.Poll? && a.pid == pid
  }

  // Every poll of pid reads a clock at least offset ahead of the handlers'.
  ghost predicate PollsAhead(w: World, run: seq<Action>, pid: U32, offset: nat) {
    forall k :: 0 <= k < |run| && IsPoll(run[k], pid) ==> After(w, run[..k]).now + offset <= run[k].now
  }

  // Polls of pid come on exact ticks.
  ghost predicate PollsOnTicks(run: seq<Action>, pid: U32) {
    forall j, k :: 0 <= j < k < |run| && IsPoll(run[j], pid) && IsPoll(run[k], pid) ==>
      run[j].now + POLL_INTERVAL_NS <= run[k].now
  }

  // No stamp is later than the handlers' clock.
  ghost predicate StampsPast(w: World, h: seq<H.PidEvent>) {
    && (forall id :: id in w.tasks && w.tasks[id].pc.Creating? ==> w.tasks[id].pc.stamp <= w.now)
    && (H.CreatedBy(h).Some? ==> H.CreatedBy(h).value.stamp <= w.now)
  }

  lemma StampsPastStep(w: World, h: seq<H.PidEvent>, a: Action, pid: U32)
    requires StampsPast(w, h)
    ensures StampsPast(Next(w, a), h + Effect(w, a, pid))
  {
    hide Totals, Visit, Bump, H.FreshCells, H.CreatedBy;
    var es := Effect(w, a, pid);
    if es == [] || !es[0].Created? {
      AtMostOneEffect(w, a, pid);
      SameCreator(h, es);
    } else {
      NewCreator(h, es);
    }
  }

  lemma NewCreator(h: seq<H.PidEvent>, es: seq<H.PidEvent>)
    requires |es| == 1 && es[0].Created?
    ensures H.CreatedBy(h + es) == Some(H.Creator(es[0].cpu, es[0].stamp))
  {
    assert (h + es)[|h|] == es[0];
  }

  lemma AheadExtend(h: seq<H.PidEvent>, es: seq<H.PidEvent>, offset: nat)
    requires H.Ahead(h, offset) && |es| <= 1
    requires es != [] && es[0].Polled? && H.CreatedBy(h).Some? ==> H.CreatedBy(h).value.stamp + offset <= es[0].now
    ensures H.Ahead(h + es, offset)
  {
    forall j | 0 <= j < |h + es| && (h + es)[j].Polled? && H.CreatedBy((h + es)[..j]).Some?
      ensures H.CreatedBy((h + es)[..j]).value.stamp + offset <= (h + es)[j].now
    {
      assert (h + es)[..j] == h[..j];
      if j == |h| {
        assert h[..j] == h;
      }
    }
  }

  lemma {:induction false} RunIsAhead(cpus: nat, start: U64, run: seq<Action>, pid: U32, offset: nat)
    requires start > 0 && PollsAhead(Init(cpus, start), run, pid, offset)
    ensures var w0 := Init(cpus, start);
            StampsPast(After(w0, run), History(w0, run, pid)) && H.Ahead(History(w0, run, pid), offset)
  {
    hide Next, H.Ahead, H.CreatedBy, IsPoll, Consistent;
    if run == [] {
      NoStampsYet(cpus, start, offset);
    } else {
      var w0, init, a := Init(cpus, start), run[..|run| - 1], run[|run| - 1];
      assert forall k :: 0 <= k < |init| ==> init[k] == run[k] && init[..k] == run[..k];
      RunIsAhead(cpus, start, init, pid, offset);
      var w, h := After(w0, init), History(w0, init, pid);
      StampsPastStep(w, h, a, pid);
      AtMostOneEffect(w, a, pid);
      PolledByPoll(w, a, pid);
      AheadExtend(h, Effect(w, a, pid), offset);
    }
  }

  lemma NoStampsYet(cpus: nat, start: U64, offset: nat)
    ensures StampsPast(Init(cpus, start), []) && H.Ahead([], offset)
  {
  }

  lemma PolledByPoll(w: World, a: Action, pid: U32)
    ensures var es := Effect(w, a, pid);
            es != [] && es[0].Polled? ==> IsPoll(a, pid) && es[0].now == a.now
  {
  }

  ghost predicate PolledIn(run: seq<Action>, pid: U32, now: U64) {
    exists k :: 0 <= k < |run| && run[k] == Poll(pid, now)
  }

  ghost predicate PollsIn(h: seq<H.PidEvent>, run: seq<Action>, pid: U32) {
    forall p :: 0 <= p < |h| && h[p].Polled? ==> PolledIn(run, pid, h[p].now)
  }

  // Every poll in a process's history is a step of the run.
  lemma {:induction false} PollsAreSteps(w0: World, run: seq<Action>, pid: U32)
    ensures PollsIn(History(w0, run, pid), run, pid)
  {
    hide Effect, After, PollsIn;
    if run == [] {
      NoPollsYet(pid);
    } else {
      var init, a := run[..|run| - 1], run[|run| - 1];
      PollsAreSteps(w0, init, pid);
      PollsInStep(After(w0, init), History(w0, init, pid), init, a, pid);
      assert run == init + [a];
    }
  }

  lemma NoPollsYet(pid: U32)
    ensures PollsIn([], [], pid)
  {
  }

  lemma PollsInStep(w: World, h: seq<H.PidEvent>, run: seq<Action>, a: Action, pid: U32)
    requires PollsIn(h, run, pid)
    ensures PollsIn(h + Effect(w, a, pid), run + [a], pid)
  {
    hide Effect;
    var h' := h + Effect(w, a, pid);
    AtMostOneEffect(w, a, pid);
    PolledByPoll(w, a, pid);
    forall p: nat | p < |h'| && h'[p].Polled? ensures PolledIn(run + [a], pid, h'[p].now) {
      if p < |h| {
        assert h[p] == h'[p];
        var k :| 0 <= k < |run| && run[k] == Poll(pid, h[p].now);
        assert (run + [a])[k] == run[k];
      } else {
        assert h'[p] == Effect(w, a, pid)[0] && (run + [a])[|run|] == a;
      }
    }
  }

  lemma {:induction false} RunIsOnTicks(w0: World, run: seq<Action>, pid: U32)
    requires PollsOnTicks(run, pid)
    ensures H.OnTicks(History(w0, run, pid))
  {
    hide Effect, After;
    if run != [] {
      var init, a := run[..|run| - 1], run[|run| - 1];
      assert forall k :: 0 <= k < |init| ==> init[k] == run[k];
      RunIsOnTicks(w0, init, pid);
      PollsAreSteps(w0, init, pid);
      var h, es := History(w0, init, pid), Effect(After(w0, init), a, pid);
      AtMostOneEffect(After(w0, init), a, pid);
      PolledByPoll(After(w0, init), a, pid);
      var h' := h + es;
      forall i: nat, j: nat | i < j < |h'| && h'[i].Polled? && h'[j].Polled?
        ensures h'[i].now + POLL_INTERVAL_NS <= h'[j].now
      {
        assert h'[i] == h[i];
        if j == |h| {
          assert PolledIn(init, pid, h[i].now);
          var k :| 0 <= k < |init| && init[k] == Poll(pid, h[i].now);
          assert run[k] == init[k];
        } else {
          assert h'[j] == h[j];
        }
      }
    }
  }

  lemma PollEndsHistory(w0: World, run: seq<Action>, pid: U32, now: U64)
    requires View(After(w0, run), pid).entry.Some?
    ensures History(w0, run + [Poll(pid, now)], pid) == History(w0, run, pid) + [H.Polled(now)]
  {
    assert (run + [Poll(pid, now)])[..|run|] == run;
    PollIsRecorded(After(w0, run), Poll(pid, now), pid);
  }

  // Over every run: with exact ticks and polls reading a clock at least offset
  // ahead, an alert whose snapshot is the entry's own comes no sooner than one
  // poll interval and the larger of offset and warm-up after the creation.
  lemma NeverAlertedEarly(cpus: nat, start: U64, run: seq<Action>, pid: U32, now: U64, offset: nat)
    requires start > 0 && AlertsAt(After(Init(cpus, start), run), pid, now)
    requires !H.Reborn(History(Init(cpus, start), run, pid), cpus)
    requires PollsAhead(Init(cpus, start), run, pid, offset) && PollsOnTicks(run + [Poll(pid, now)], pid)
    ensures var h := History(Init(cpus, start), run, pid);
            && H.CreatedBy(h).Some?
            && now >= H.CreatedBy(h).value.stamp + 5_000_000_000
                      + if offset < 3_000_000_000 then 3_000_000_000 else offset
  {
    hide After, History, View, PollsAhead, PollsOnTicks, Visit, Totals;
    hide H.After, H.Legal, H.Reborn, H.Ahead, H.OnTicks, H.CreatedBy;
    var w0 := Init(cpus, start);
    RunsFollowHistories(cpus, start, run, pid);
    RunIsAhead(cpus, start, run, pid, offset);
    RunIsOnTicks(w0, run + [Poll(pid, now)], pid);
    PollEndsHistory(w0, run, pid, now);
    H.NeverAlertedEarly(History(w0, run, pid), now, offset, cpus);
  }

  // After step i pid's entry is neither created nor deleted.
  ghost predicate SameEntryAfter(w: World, run: seq<Action>, i: nat, pid: U32) {
    forall k :: i < k < |run| ==> KeepsEntry(After(w, run[..k]), run[k], pid)
  }

  ghost predicate KeepsEntry(w: World, a: Action, pid: U32) {
    var es := Effect(w, a, pid);
    es == [] || (!es[0].Created? && !es[0].Deleted?)
  }

  ghost predicate PollsInOrder(run: seq<Action>, i: nat, pid: U32) {
    forall k :: i < k < |run| && IsPoll(run[k], pid) && run[i].Poll? ==> run[i].now <= run[k].now
  }

  lemma HistoryLast(w: World, run: seq<Action>, pid: U32)
    requires run != []
    ensures var init := run[..|run| - 1];
            History(w, run, pid) == History(w, init, pid) + Effect(After(w, init), run[|run| - 1], pid)
  {
  }

  lemma SameCreator(h: seq<H.PidEvent>, es: seq<H.PidEvent>)
    requires |es| <= 1 && (es == [] || !es[0].Created?)
    ensures H.CreatedBy(h + es) == H.CreatedBy(h)
  {
    if es == [] {
      assert h + es == h;
    } else {
      assert es == [es[0]];
      H.SinceCreatedAppend(h, es[0], IoctlHit);
    }
  }

  lemma {:induction false} CreatorStays(w0: World, run: seq<Action>, i: nat, k: nat, pid: U32)
    requires i < k <= |run| && IsPoll(run[i], pid) && SameEntryAfter(w0, run, i, pid)
    ensures H.CreatedBy(History(w0, run[..k], pid)) == H.CreatedBy(History(w0, run[..i], pid))
    decreases k
  {
    hide After, Effect, History, H.CreatedBy, SameEntryAfter;
    var p := run[..k];
    var w, a := After(w0, run[..k - 1]), run[k - 1];
    assert p[..|p| - 1] == run[..k - 1];
    HistoryLast(w0, p, pid);
    AtMostOneEffect(w, a, pid);
    if k - 1 > i {
      CreatorStays(w0, run, i, k - 1, pid);
      KeptAt(w0, run, i, k - 1, pid);
    } else {
      PollsCreateNothing(w, a, pid);
    }
    SameCreator(History(w0, run[..k - 1], pid), Effect(w, a, pid));
  }

  lemma PollsCreateNothing(w: World, a: Action, pid: U32)
    requires a.Poll?
    ensures KeepsEntry(w, a, pid)
  {
  }

  // On one clock that never goes back, a process is watched from a storing poll
  // on as long as its entry stays, so AlertExactness and SteadyBypassIsAlerted
  // apply.
  lemma UndisturbedOnOneClock(cpus: nat, start: U64, run: seq<Action>, i: nat, pid: U32)
    requires start > 0 && StoresAt(Init(cpus, start), run, i, pid) && SameEntryAfter(Init(cpus, start), run, i, pid)
    requires PollsAhead(Init(cpus, start), run, pid, 0) && PollsInOrder(run, i, pid)
    ensures Undisturbed(Init(cpus, start), run, i, pid)
  {
    forall k | i < k < |run| ensures Harmless(Init(cpus, start), run, k, pid) {
      HarmlessOnOneClock(cpus, start, run, i, k, pid);
    }
  }

  lemma HarmlessOnOneClock(cpus: nat, start: U64, run: seq<Action>, i: nat, k: nat, pid: U32)
    requires start > 0 && StoresAt(Init(cpus, start), run, i, pid) && SameEntryAfter(Init(cpus, start), run, i, pid)
    requires PollsAhead(Init(cpus, start), run, pid, 0) && PollsInOrder(run, i, pid) && i < k < |run|
    ensures Harmless(Init(cpus, start), run, k, pid)
  {
    hide After, View, Effect, History, H.Stores, H.CreatedBy, SameEntryAfter, PollsAhead;
    var w0 := Init(cpus, start);
    var w := After(w0, run[..k]);
    StoredWhenWarm(cpus, start, run, i, pid);
    CreatorStays(w0, run, i, k, pid);
    PolledByPoll(w, run[k], pid);
    AtMostOneEffect(w, run[k], pid);
    KeptAt(w0, run, i, k, pid);
  }

  lemma KeptAt(w: World, run: seq<Action>, i: nat, k: nat, pid: U32)
    requires SameEntryAfter(w, run, i, pid) && i < k < |run|
    ensures KeepsEntry(After(w, run[..k]), run[k], pid)
  {
  }

  lemma StoredWhenWarm(cpus: nat, start: U64, run: seq<Action>, i: nat, pid: U32)
    requires start > 0 && StoresAt(Init(cpus, start), run, i, pid) && PollsAhead(Init(cpus, start), run, pid, 0)
    ensures var h := History(Init(cpus, start), run[..i], pid);
            H.CreatedBy(h).Some? && H.CreatedBy(h).value.stamp + WARMUP_NS <= run[i].now
  {
    hide After, View, History, H.After, H.Legal, H.CreatedBy, Totals, H.Ahead;
    var w0, p := Init(cpus, start), run[..i];
    assert forall k :: 0 <= k < |p| ==> p[k] == run[k] && p[..k] == run[..k];
    RunsFollowHistories(cpus, start, p, pid);
    RunIsAhead(cpus, start, p, pid, 0);
    H.PolledTotals(History(w0, p, pid), cpus);
    assert IsPoll(run[i], pid);
  }
}
