/** On the Celery path, when a queued row has nobody left to serve it. */
module CeleryDelivery {
  import opened TaskTable
  import opened CeleryProtocol
  import opened CeleryGuarantees
  import opened CeleryRuns

  /** A message for the row is waiting. */
  ghost predicate HasMessage(s: State, id: nat) {
    exists m :: m in s.inbox && m.id == id
  }

  /** An execution for the row has not decided yet what to do with it, or is about to fail it. */
  predicate Attends(e: Execution, id: nat) {
    e.message.id == id && (e.phase.Begun? || e.phase.Raised?)
  }

  ghost predicate Attended(s: State, id: nat) {
    exists x :: x in s.live && Attends(s.live[x], id)
  }

  /** Its view has saved it and is about to send the message. */
  ghost predicate Announced(s: State, id: nat) {
    exists v :: v in s.views && s.views[v].id == id
  }

  ghost predicate Tended(s: State, id: nat) {
    HasMessage(s, id) || Attended(s, id) || Announced(s, id)
  }

  /** Every queued row has a message, an execution or a view of its own. */
  ghost predicate NoneStranded(s: State) {
    forall id :: id in s.table && s.table[id].status == Queued ==> Tended(s, id)
  }

  ghost predicate NoNewQueued(t: Table, t': Table) {
    forall id :: id in t' && t'[id].status == Queued ==> id in t && t[id].status == Queued
  }

  lemma DispatchQueues(t: Table, now: int)
    ensures NoNewQueued(t, ProcessNext(t, now).0)
  {
    if WithStatus(t, Running) == {} {
      DrainEffect(Celery, t, now);
    }
  }

  lemma BeginQueues(s: State, x: nat)
    requires x in s.live && s.live[x].phase.Begun?
    ensures NoNewQueued(s.table, Begin(s, x).table)
  {
    var (t, id) := (s.table, s.live[x].message.id);
    if id in t && Solved(Celery, t, t[id].purl) {
      DispatchQueues(t[id := Linked(t[id], t[Donor(Celery, t, t[id].purl)], s.clock)], s.clock);
    }
  }

  lemma WorkQueues(s: State, x: nat, outcome: Outcome)
    requires Inv(s) && x in s.live
    ensures NoNewQueued(s.table, WorkStep(s, x, outcome).table)
  {
    var p := s.live[x].phase;
    if p.Begun? {
      BeginQueues(s, x);
    } else if p.Dispatching? || p.RaisedDispatching? {
      DispatchQueues(s.table, s.clock);
    }
  }

  /** `s'` has all messages of `s`, and all executions but `x` as they were. */
  ghost predicate KeepsOthers(s: State, s': State, x: nat) {
    s.inbox <= s'.inbox && s.views == s'.views
    && forall y :: y in s.live && y != x ==> y in s'.live && s'.live[y] == s.live[y]
  }

  lemma BeginKeepsOthers(s: State, x: nat)
    requires x in s.live
    ensures KeepsOthers(s, Begin(s, x), x)
  {}

  lemma DispatchAddsMessages(s: State)
    ensures s.inbox <= Dispatch(s).inbox && Dispatch(s).live == s.live && Dispatch(s).views == s.views
  {}

  lemma LastDispatchKeepsOthers(s: State, x: nat, outcome: Outcome)
    requires x in s.live && s.live[x].phase.Dispatching?
    ensures KeepsOthers(s, WorkStep(s, x, outcome), x)
  {
    DispatchAddsMessages(s);
  }

  lemma RetryKeepsOthers(s: State, x: nat, outcome: Outcome)
    requires x in s.live && s.live[x].phase.RaisedDispatching?
    ensures KeepsOthers(s, WorkStep(s, x, outcome), x)
  {
    DispatchAddsMessages(s);
  }

  lemma SaveKeepsOthers(s: State, x: nat, outcome: Outcome)
    requires x in s.live
    requires var p := s.live[x].phase; p.Analysing? || p.Analysed? || p.Publishing? || p.Raised?
    ensures KeepsOthers(s, WorkStep(s, x, outcome), x)
  {}

  lemma WorkKeepsOthers(s: State, x: nat, outcome: Outcome)
    requires x in s.live
    ensures KeepsOthers(s, WorkStep(s, x, outcome), x)
  {
    if s.live[x].phase.Begun? {
      BeginKeepsOthers(s, x);
    } else if s.live[x].phase.Dispatching? {
      LastDispatchKeepsOthers(s, x, outcome);
    } else if s.live[x].phase.RaisedDispatching? {
      RetryKeepsOthers(s, x, outcome);
    } else {
      SaveKeepsOthers(s, x, outcome);
    }
  }

  /** An opening transaction that leaves its row queued puts the message back or is about to fail the row. */
  lemma BeginAttends(s: State, x: nat)
    requires x in s.live && s.live[x].phase.Begun?
    requires var id := s.live[x].message.id; id in Begin(s, x).table && Begin(s, x).table[id].status == Queued
    ensures HasMessage(Begin(s, x), s.live[x].message.id) || Attended(Begin(s, x), s.live[x].message.id)
  {
    var (t, m) := (s.table, s.live[x].message);
    var s' := Begin(s, x);
    BeginQueues(s, x);
    if WithStatus(t, Running) - {m.id} != {} {
      if m.retries < MAX_RETRIES {
        assert Delivery(m.id, m.retries + 1) in s'.inbox;
      } else {
        assert Attends(s'.live[x], m.id);
      }
    } else if Solved(Celery, t, t[m.id].purl) {
      DispatchQueues(t[m.id := Linked(t[m.id], t[Donor(Celery, t, t[m.id].purl)], s.clock)], s.clock);
    }
  }

  lemma WorkStrandsNone(s: State, x: nat, outcome: Outcome, id: nat)
    requires Inv(s) && NoneStranded(s) && x in s.live
    requires id in WorkStep(s, x, outcome).table && WorkStep(s, x, outcome).table[id].status == Queued
    ensures Tended(WorkStep(s, x, outcome), id)
  {
    var s' := WorkStep(s, x, outcome);
    WorkQueues(s, x, outcome);
    WorkKeepsOthers(s, x, outcome);
    if HasMessage(s, id) {
      var m :| m in s.inbox && m.id == id;
      assert m in s'.inbox;
    } else if Announced(s, id) {
      assert s'.views == s.views;
    } else {
      var y :| y in s.live && Attends(s.live[y], id);
      if y != x {
        assert Attends(s'.live[y], id);
      } else if s.live[x].phase.Begun? {
        BeginAttends(s, x);
      }
    }
  }

  // ---------------------------------------------------------------- the other steps

  lemma ReceiptTends(s: State, e: Event, id: nat)
    requires Tended(s, id) && Enabled(s, e) && e.action.Receive?
    ensures Tended(Next(s, e), id)
  {
    var (x, m, s') := (e.action.execution, e.action.message, Next(s, e));
    if m.id == id {
      assert Attends(s'.live[x], id);
    } else if HasMessage(s, id) {
      var other :| other in s.inbox && other.id == id;
      assert other in s'.inbox;
    } else if Attended(s, id) {
      var y :| y in s.live && Attends(s.live[y], id);
      assert Attends(s'.live[y], id);
    } else {
      assert s'.views == s.views;
    }
  }

  lemma SendTends(s: State, e: Event, id: nat)
    requires Tended(s, id) && Enabled(s, e) && e.action.Send?
    ensures Tended(Next(s, e), id)
  {
    var (v, s') := (e.action.view, Next(s, e));
    if s.views[v].id == id {
      assert Delivery(id, 0) in s'.inbox;
    } else if HasMessage(s, id) {
      var m :| m in s.inbox && m.id == id;
      assert m in s'.inbox;
    } else if Announced(s, id) {
      var w :| w in s.views && s.views[w].id == id;
      assert w in s'.views && s'.views[w].id == id;
    }
  }

  lemma LossTends(s: State, e: Event, id: nat)
    requires Tended(s, id) && Enabled(s, e) && e.action.WorkerLost?
    ensures Tended(Next(s, e), id)
  {
    var (x, s') := (e.action.execution, Next(s, e));
    if HasMessage(s, id) {
      var m :| m in s.inbox && m.id == id;
      assert m in s'.inbox;
    } else if Attended(s, id) {
      var y :| y in s.live && Attends(s.live[y], id);
      if x == y {
        assert s.live[y].message in s'.inbox;
      } else {
        assert Attends(s'.live[y], id);
      }
    } else {
      assert s'.views == s.views;
    }
  }

  lemma EnqueueTends(s: State, e: Event, id: nat)
    requires NoneStranded(s) && Enabled(s, e) && e.action.Enqueue?
    requires id in Next(s, e).table && Next(s, e).table[id].status == Queued
    ensures Tended(Next(s, e), id)
  {
    var s' := Next(s, e);
    if e.action.id == id {
      assert s'.views[e.action.view].id == id;
    } else if Announced(s, id) {
      var w :| w in s.views && s.views[w].id == id;
      assert w in s'.views && s'.views[w].id == id;
    }
  }

  lemma FailureTends(s: State, e: Event, id: nat)
    requires NoneStranded(s) && Enabled(s, e) && e.action.SendFails?
    requires id in Next(s, e).table && Next(s, e).table[id].status == Queued
    ensures Tended(Next(s, e), id)
  {
    var s' := Next(s, e);
    assert id != s.views[e.action.view].id;
    if Announced(s, id) {
      var w :| w in s.views && s.views[w].id == id;
      assert w in s'.views && s'.views[w].id == id;
    }
  }

  predicate IsPeriodic(a: Action) {
    a.CheckTimeouts? || a.Cleanup? || a.Create? || a.Redeliver?
  }

  lemma PeriodicQueues(s: State, e: Event)
    requires Enabled(s, e) && IsPeriodic(e.action)
    ensures NoNewQueued(s.table, Next(s, e).table)
  {
    if e.action.CheckTimeouts? {
      DispatchQueues(AllExpired(s.table, e.at), e.at);
    }
  }

  lemma PeriodicAdds(s: State, e: Event)
    requires Enabled(s, e) && IsPeriodic(e.action)
    ensures s.inbox <= Next(s, e).inbox && Next(s, e).live == s.live && Next(s, e).views == s.views
  {}

  lemma MoreMessagesTend(s: State, s': State, id: nat)
    requires Tended(s, id) && s.inbox <= s'.inbox && s'.live == s.live && s'.views == s.views
    ensures Tended(s', id)
  {
    if HasMessage(s, id) {
      var m :| m in s.inbox && m.id == id;
      assert m in s'.inbox;
    }
  }

  lemma PeriodicTends(s: State, e: Event, id: nat)
    requires NoneStranded(s) && Enabled(s, e) && IsPeriodic(e.action)
    requires id in Next(s, e).table && Next(s, e).table[id].status == Queued
    ensures Tended(Next(s, e), id)
  {
    PeriodicQueues(s, e);
    PeriodicAdds(s, e);
    MoreMessagesTend(s, Next(s, e), id);
  }

  // ---------------------------------------------------------------- what strands a row

  /** The view dies before it sends, and nobody else is there for the row. */
  ghost predicate ViewWasLast(s: State, v: nat, id: nat) {
    && v in s.views && s.views[v].id == id
    && !HasMessage(s, id) && !Attended(s, id)
    && forall w :: w in s.views && w != v ==> s.views[w].id != id
  }

  /** The execution is ended by the hard time limit, and nobody else is there for the row. */
  ghost predicate ExecutionWasLast(s: State, x: nat, id: nat) {
    && x in s.live && Attends(s.live[x], id)
    && !HasMessage(s, id) && !Announced(s, id)
    && forall y :: y in s.live && y != x ==> !Attends(s.live[y], id)
  }

  /** The step takes away the last that a queued row has. */
  ghost predicate Strands(s: State, e: Event, id: nat) {
    && id in s.table && s.table[id].status == Queued
    && ((e.action.LoseView? && ViewWasLast(s, e.action.view, id))
        || (e.action.TimeLimit? && ExecutionWasLast(s, e.action.execution, id)))
  }

  lemma LostViewTendsIff(s: State, e: Event, id: nat)
    requires Tended(s, id) && Enabled(s, e) && e.action.LoseView?
    ensures Tended(Next(s, e), id) <==> !ViewWasLast(s, e.action.view, id)
  {
    var (v, s') := (e.action.view, Next(s, e));
    assert s'.inbox == s.inbox && s'.live == s.live;
    if !HasMessage(s, id) && !Attended(s, id) && !ViewWasLast(s, v, id) {
      var w :| w in s.views && s.views[w].id == id && w != v;
      assert w in s'.views && s'.views[w].id == id;
    }
  }

  lemma TimeLimitTendsIff(s: State, e: Event, id: nat)
    requires Tended(s, id) && Enabled(s, e) && e.action.TimeLimit?
    ensures Tended(Next(s, e), id) <==> !ExecutionWasLast(s, e.action.execution, id)
  {
    var (x, s') := (e.action.execution, Next(s, e));
    assert s'.inbox == s.inbox && s'.views == s.views;
    if !HasMessage(s, id) && !Announced(s, id) && !ExecutionWasLast(s, x, id) {
      var y :| y in s.live && Attends(s.live[y], id) && y != x;
      assert Attends(s'.live[y], id);
    }
  }

  lemma StepTends(s: State, e: Event, id: nat)
    requires Inv(s) && NoneStranded(s) && Enabled(s, e) && !Strands(s, e, id)
    requires id in Next(s, e).table && Next(s, e).table[id].status == Queued
    ensures Tended(Next(s, e), id)
  {
    match e.action {
      case Work(x, outcome) => WorkStrandsNone(s.(clock := e.at), x, outcome, id);
      case Receive(_, _) => ReceiptTends(s, e, id);
      case Send(_) => SendTends(s, e, id);
      case WorkerLost(_) => LossTends(s, e, id);
      case Enqueue(_, _) => EnqueueTends(s, e, id);
      case SendFails(_) => FailureTends(s, e, id);
      case LoseView(_) => LostViewTendsIff(s, e, id);
      case TimeLimit(_) => TimeLimitTendsIff(s, e, id);
      case _ => PeriodicTends(s, e, id);
    }
  }

  lemma StrandsOne(s: State, e: Event, id: nat)
    requires NoneStranded(s) && Enabled(s, e) && Strands(s, e, id)
    ensures !NoneStranded(Next(s, e))
  {
    if e.action.LoseView? {
      LostViewTendsIff(s, e, id);
    } else {
      TimeLimitTendsIff(s, e, id);
    }
  }

  /** Exactly two steps strand a row: the loss of its view and the end of its execution by the time limit, when
      nobody else is there for it. Every other step, the loss of a worker included, keeps somebody. */
  lemma StepStrandsIff(s: State, e: Event)
    requires Inv(s) && NoneStranded(s) && Enabled(s, e)
    ensures NoneStranded(Next(s, e)) <==> forall id :: !Strands(s, e, id)
  {
    if exists id :: Strands(s, e, id) {
      var id :| Strands(s, e, id);
      StrandsOne(s, e, id);
    } else {
      forall id | id in Next(s, e).table && Next(s, e).table[id].status == Queued ensures Tended(Next(s, e), id) {
        StepTends(s, e, id);
      }
    }
  }

  ghost predicate NeverStranded(s: State, es: seq<Event>)
    requires Valid(s, es)
    decreases |es|
  {
    NoneStranded(s) && (es != [] ==> NeverStranded(Next(s, es[0]), es[1..]))
  }

  ghost predicate NeverStrands(s: State, es: seq<Event>)
    requires Valid(s, es)
    decreases |es|
  {
    es != [] ==> (forall id :: !Strands(s, es[0], id)) && NeverStrands(Next(s, es[0]), es[1..])
  }

  lemma {:induction false} RunStrandsIff(s: State, es: seq<Event>)
    requires Inv(s) && NoneStranded(s) && Valid(s, es)
    ensures NeverStranded(s, es) <==> NeverStrands(s, es)
    decreases |es|
  {
    if es != [] {
      StepStrandsIff(s, es[0]);
      if NoneStranded(Next(s, es[0])) {
        StepKeepsInv(s, es[0]);
        RunStrandsIff(Next(s, es[0]), es[1..]);
      }
    }
  }

  /** In every state of a run, with duplicates, losses of workers, retries, failures to send, timeouts and
      clean-ups, each queued row has a message, an execution or a view of its own, if and only if no step of the
      run loses a view or ends an execution that was the last the row had. */
  lemma NoRowIsForgottenIff(es: seq<Event>)
    requires Valid(Initial, es)
    ensures NeverStranded(Initial, es) <==> NeverStrands(Initial, es)
  {
    RunStrandsIff(Initial, es);
  }

  // ---------------------------------------------------------------- both happen

  /** A view that dies after its transaction strands its row. */
  lemma LostViewStrands()
    ensures exists s, e :: Reached(s) && Enabled(s, e) && e.action.LoseView? && Strands(s, e, 0)
  {
    InitialIsReached();
    var s := Saved(Initial, 0, "a");
    var e := Event(3, LoseView(0));
    assert s.views[0].id == 0 && s.inbox == multiset{} && s.live == map[];
    assert Enabled(s, e) && ViewWasLast(s, 0, 0);
  }

  /** So does the time limit when it ends an execution that has not started its row. */
  lemma TimeLimitStrands()
    ensures exists s, e :: Reached(s) && Enabled(s, e) && e.action.TimeLimit? && Strands(s, e, 0)
  {
    InitialIsReached();
    var s := Submitted(Initial, 0, "a");
    var e := Event(4, Receive(0, Delivery(0, 0)));
    ReachedNext(s, e);
    s := Next(s, e);
    assert s.inbox == multiset{} && s.views == map[] && s.live == map[0 := Execution(Delivery(0, 0), Begun)];
    e := Event(5, TimeLimit(0));
    assert Enabled(s, e) && ExecutionWasLast(s, 0, 0);
  }
}
