/** When the queue manager's timeout sweep fails a row, and when it cannot. */
module QueueTimeouts {
  import opened Options
  import opened TaskTable
  import opened QueueManager
  import opened QueueProtocol
  import opened QueueGuarantees

  // ---------------------------------------------------------------- one step

  predicate Analyses(p: Phase, id: nat) {
    (p.Analysing? || p.Saving? || p.Raised?) && p.id == id
  }

  /** The step is the sweep of a worker, and the row is past its limit then. */
  predicate SweepExpires(s: State, e: Event, id: nat)
    requires Enabled(s, e) && id in s.table
  {
    && e.action.Work? && s.live[e.action.thread].Sweeping? && s.table[id].status == Running
    && s.table[id].startedAt.Some? && e.at - s.table[id].startedAt.value > 60 * s.table[id].timeoutMinutes
  }

  /** The step records that the row's own analysis raised. */
  predicate AnalysisFails(s: State, e: Event, id: nat)
    requires Enabled(s, e)
  {
    e.action.Work? && s.live[e.action.thread].Raised? && s.live[e.action.thread].id == id
  }

  /** In every state, crashes included, exactly two steps fail a running row: the sweep when the row is past its
      limit, which marks it as timed out, and the end of its own analysis. */
  lemma FailsIff(s: State, e: Event, id: nat)
    requires Inv(s) && Enabled(s, e) && id in s.table && s.table[id].status == Running
    ensures id in Next(s, e).table
    ensures Next(s, e).table[id].status == Failed <==> SweepExpires(s, e, id) || AnalysisFails(s, e, id)
    ensures SweepExpires(s, e, id) ==>
      Next(s, e).table[id]
      == s.table[id].(status := Failed, errorCategory := "timeout_error", completedAt := Some(e.at), position := None)
    ensures AnalysisFails(s, e, id) ==>
      && Next(s, e).table[id].errorCategory == s.live[e.action.thread].category
      && Next(s, e).table[id].completedAt == Some(e.at) && Next(s, e).table[id].position == None
  {
    if e.action.Work? {
      assert PhaseOk(s.table, s.live[e.action.thread]);
      WorkRow(s, e, id);
      assert id in WithStatus(s.table, Running);
      if s.live[e.action.thread].Sweeping? && s.table[id].TimedOut(e.at) {
        assert id in TimedOutRows(s.table, e.at);
      }
    }
  }

  /** In every state, crashes included, the sweep spares what a live worker analyses: a worker that sweeps is the
      only one, so each running row it finds is an orphan. */
  lemma SweepFindsOrphans(s: State, thread: nat, id: nat)
    requires Inv(s) && thread in s.live && s.live[thread].Sweeping?
    ensures forall other :: other in s.live ==> !Analyses(s.live[other], id)
  {
    forall other | other in s.live ensures other == thread {}
  }

  // ---------------------------------------------------------------- orphans

  /** Every running row is the one a live worker is analysing. */
  ghost predicate NoOrphans(s: State) {
    forall id :: id in s.table && s.table[id].status == Running ==>
      exists thread :: thread in s.live && Analyses(s.live[thread], id)
  }

  lemma WorkKeepsNoOrphans(s: State, e: Event, id: nat)
    requires Inv(s) && NoOrphans(s) && Enabled(s, e) && e.action.Work?
    requires id in s.table && id in Next(s, e).table && Next(s, e).table[id].status == Running
    ensures e.action.thread in Next(s, e).live && Analyses(Next(s, e).live[e.action.thread], id)
  {
    var thread := e.action.thread;
    assert PhaseOk(s.table, s.live[thread]);
    WorkRow(s, e, id);
    if s.table[id].status == Running {
      var other :| other in s.live && Analyses(s.live[other], id);
      assert other == thread;
    }
  }

  lemma NoOrphansKept(s: State, e: Event)
    requires Inv(s) && NoOrphans(s) && Enabled(s, e) && !e.action.Crash?
    ensures NoOrphans(Next(s, e))
  {
    var s' := Next(s, e);
    forall id | id in s'.table && s'.table[id].status == Running
      ensures exists thread :: thread in s'.live && Analyses(s'.live[thread], id)
    {
      if e.action.Work? {
        WorkKeepsRows(s, e);
        WorkKeepsNoOrphans(s, e, id);
      } else {
        var thread :| thread in s.live && Analyses(s.live[thread], id);
        assert thread in s'.live && s'.live[thread] == s.live[thread];
      }
    }
  }

  ghost predicate NeverCrashes(es: seq<Event>) {
    forall i :: 0 <= i < |es| ==> !es[i].action.Crash?
  }

  lemma {:induction false} RunKeepsNoOrphans(s: State, es: seq<Event>)
    requires Inv(s) && NoOrphans(s) && Valid(s, es) && NeverCrashes(es)
    ensures NoOrphans(Run(s, es))
    decreases |es|
  {
    if es != [] {
      StepKeepsInv(s, es[0]);
      NoOrphansKept(s, es[0]);
      RunKeepsNoOrphans(Next(s, es[0]), es[1..]);
    }
  }

  /** The worker sweeps for timeouts only between tasks, so unless the process has crashed before, no sweep
      ever finds a row to fail, however long an analysis takes. */
  lemma TimeoutsNeverFire(es: seq<Event>, thread: nat, now: int)
    requires Valid(Initial, es) && NeverCrashes(es)
    requires thread in Run(Initial, es).live && Run(Initial, es).live[thread].Sweeping?
    ensures Swept(Run(Initial, es).table, now) == Run(Initial, es).table
  {
    assert QueueOk(Initial.table, 0);
    RunKeepsInv(Initial, es);
    RunKeepsNoOrphans(Initial, es);
    var s := Run(Initial, es);
    assert OnlyRunning(s.table, {});
  }

  lemma SweepIsNotIdle(t: Table, now: int, id: nat)
    requires id in t && t[id].TimedOut(now)
    ensures Swept(t, now) != t
  {
    assert id in TimedOutRows(t, now);
    assert Swept(t, now)[id].status == Failed;
  }

  /** A row past its limit is failed as timed out in a run only if the process crashed before. */
  lemma OnlyOrphansExpire(es: seq<Event>, e: Event, id: nat)
    requires Valid(Initial, es) && Enabled(Run(Initial, es), e)
    requires id in Run(Initial, es).table && SweepExpires(Run(Initial, es), e, id)
    ensures !NeverCrashes(es)
  {
    SweepIsNotIdle(Run(Initial, es).table, e.at, id);
    if NeverCrashes(es) {
      TimeoutsNeverFire(es, e.action.thread, e.at);
    }
  }

  // ---------------------------------------------------------------- both happen

  lemma {:induction false} RunAppend(s: State, es: seq<Event>, e: Event)
    requires Valid(s, es) && Enabled(Run(s, es), e)
    ensures Valid(s, es + [e]) && Run(s, es + [e]) == Next(Run(s, es), e)
    decreases |es|
  {
    if es == [] {
      assert [e][1..] == [];
      assert es + [e] == [e];
    } else {
      RunAppend(Next(s, es[0]), es[1..], e);
      assert (es + [e])[1..] == es[1..] + [e];
    }
  }

  /** A run from the empty table leads to `s`, without a crash when `smooth`. */
  ghost predicate Reached(s: State, smooth: bool) {
    exists es :: Valid(Initial, es) && Run(Initial, es) == s && (smooth ==> NeverCrashes(es))
  }

  lemma ReachedNext(s: State, smooth: bool, e: Event)
    requires Reached(s, smooth) && Enabled(s, e) && (smooth ==> !e.action.Crash?)
    ensures Reached(Next(s, e), smooth)
  {
    var es :| Valid(Initial, es) && Run(Initial, es) == s && (smooth ==> NeverCrashes(es));
    RunAppend(Initial, es, e);
    assert smooth ==> NeverCrashes(es + [e]);
  }

  function Row(): Task {
    FreshRow("a", 0, 30).(status := Queued, position := Some(1), queuedAt := Some(2))
  }

  lemma RowWaits() returns (s: State)
    ensures Reached(s, true) && s == State(map[0 := Row()], 3, map[0 := LoopTop], Some(0), false)
  {
    s := Initial;
    assert Valid(Initial, []) && Run(Initial, []) == s && NeverCrashes([]);
    var e := Event(1, Create(0, "a", 0, 30));
    ReachedNext(s, true, e);
    s := Next(s, e);
    assert LastKeys(s.table) == {};
    e := Event(2, Submit(0));
    ReachedNext(s, true, e);
    s := Next(s, e);
    e := Event(3, EnsureWorker(0));
    ReachedNext(s, true, e);
    s := Next(s, e);
    assert s.table == map[0 := Row()];
  }

  function Step(at: int, thread: nat): Event {
    Event(at, Work(thread, None, 0, false))
  }

  lemma RowIsNext() returns (s: State)
    ensures Reached(s, true) && s == State(map[0 := Row()], 5, map[0 := Selecting], Some(0), false)
  {
    s := RowWaits();
    ReachedNext(s, true, Step(4, 0));
    s := Next(s, Step(4, 0));
    assert TimedOutRows(s.table, 5) == {};
    ReachedNext(s, true, Step(5, 0));
    s := Next(s, Step(5, 0));
  }

  lemma OneRowDrains(t: Table, now: int)
    requires t == map[0 := Row()]
    ensures WithStatus(t, Running) == {} && Drain(Manager, t, now) == (t, Some(0))
  {
    assert WithStatus(t, Queued) == {0};
    assert Head(Manager, t).value in WithStatus(t, Queued);
    assert Donors(t, "a") == {};
  }

  lemma RowStarts() returns (s: State)
    ensures Reached(s, true)
    ensures s == State(map[0 := Started(Row(), 7)], 7, map[0 := Analysing(0, Started(Row(), 7))], Some(0), false)
  {
    s := RowIsNext();
    OneRowDrains(s.table, 6);
    ReachedNext(s, true, Step(6, 0));
    s := Next(s, Step(6, 0));
    assert s == State(map[0 := Row()], 6, map[0 := Picked(0, Row())], Some(0), false);
    ReachedNext(s, true, Step(7, 0));
    s := Next(s, Step(7, 0));
  }

  lemma RowIsLate() returns (s: State)
    ensures Reached(s, true) && s.clock == 2000 && s.current == Some(0) && s.live.Keys == {0} && Analyses(s.live[0], 0)
    ensures 0 in s.table && s.table[0] == Started(Row(), 7) && s.table[0].TimedOut(2000)
  {
    s := RowStarts();
    var e := Event(2000, Create(1, "b", 0, 30));
    ReachedNext(s, true, e);
    s := Next(s, e);
  }

  /** A row can be running past its limit in a run without a crash, and then no sweep fails it. */
  lemma LiveAnalysisOverruns()
    ensures exists s, id, thread ::
      Reached(s, true) && id in s.table && s.table[id].TimedOut(s.clock) && thread in s.live
        && Analyses(s.live[thread], id)
  {
    var s := RowIsLate();
    assert Reached(s, true) && s.table[0].TimedOut(s.clock) && Analyses(s.live[0], 0);
  }

  /** After a crash the next worker's sweep does fail the row that was left running. */
  lemma OrphanExpires()
    ensures exists s, e, id :: Reached(s, false) && Enabled(s, e) && id in s.table && SweepExpires(s, e, id)
  {
    var s := RowIsLate();
    assert Reached(s, false) by {
      var es :| Valid(Initial, es) && Run(Initial, es) == s;
    }
    ReachedNext(s, false, Event(2001, Crash));
    s := Next(s, Event(2001, Crash));
    ReachedNext(s, false, Event(2002, EnsureWorker(1)));
    s := Next(s, Event(2002, EnsureWorker(1)));
    ReachedNext(s, false, Step(2003, 1));
    s := Next(s, Step(2003, 1));
    assert Enabled(s, Step(2004, 1)) && SweepExpires(s, Step(2004, 1), 0);
  }
}
