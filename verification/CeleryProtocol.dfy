/** The Celery path as a state machine: views, workers, the periodic timeout check and clean-up interleave,
    one database transaction per step. */
module CeleryProtocol {
  import opened Options
  import opened TaskTable

  /** A message asking for `run_dynamic_analysis(id)`, and how often it has been retried. */
  datatype Delivery = Delivery(id: nat, retries: nat)

  const MAX_RETRIES: nat := 1

  /** How far one execution of the task function has come. `copy` is its row object. */
  datatype Phase =
    | Begun
    | Analysing(copy: Task)
    | Analysed(copy: Task)
    | Publishing(copy: Task)
    | Dispatching
    | Raised(category: string)
    | RaisedDispatching

  datatype Execution = Execution(message: Delivery, phase: Phase)

  /** A view that has saved its row as queued and has not sent the message yet. `copy` is its row object. */
  datatype View = View(id: nat, copy: Task)

  datatype State = State(
    table: Table, clock: int, inbox: multiset<Delivery>, live: map<nat, Execution>, views: map<nat, View>)

  /** How an analysis step goes: served from the result cache, carried on, or ended by an exception. */
  datatype Outcome = Cached | Done(reference: nat, published: bool) | Raises(category: string)

  /** The category of an error that does not bring its own. */
  const UNKNOWN_ERROR := "unknown_error"

  datatype Action =
    | Create(id: nat, purl: string, priority: nat, timeoutMinutes: nat)
    | Enqueue(view: nat, id: nat)
    | Send(view: nat)
    | SendFails(view: nat)
    | LoseView(view: nat)
    | Redeliver(message: Delivery)
    | Receive(execution: nat, message: Delivery)
    | Work(execution: nat, outcome: Outcome)
    | WorkerLost(execution: nat)
    | TimeLimit(execution: nat)
    | CheckTimeouts
    | Cleanup(cutoff: int)

  datatype Event = Event(at: int, action: Action)

  predicate Enabled(s: State, e: Event) {
    && s.clock < e.at
    && match e.action
       case Create(id, _, _, _) => id !in s.table
       case Enqueue(v, id) => v !in s.views && id in s.table && s.table[id].status == Pending
       case Send(v) => v in s.views
       case SendFails(v) => v in s.views
       case LoseView(v) => v in s.views
       case Receive(x, m) => x !in s.live && m in s.inbox
       case Work(x, _) => x in s.live
       case WorkerLost(x) => x in s.live
       case TimeLimit(x) => x in s.live
       case _ => true
  }

  /** The view's own numbering: one more than the number of other queued rows, never renumbered here. */
  function Appended(t: Table, id: nat, now: int): Table
    requires id in t
  {
    var others := WithStatus(t, Queued) - {id};
    t[id := t[id].(status := Queued, queuedAt := Some(now), position := Some(|others| + 1))]
  }

  /** Rows that finished before the cut-off are deleted. */
  function CleanedUp(t: Table, cutoff: int): Table {
    map id | id in t && !((t[id].status == Completed || t[id].status == Failed)
                          && t[id].completedAt.Some? && t[id].completedAt.value < cutoff) :: t[id]
  }

  /** Starts the next queued task by message, unless a row is running. */
  ghost function ProcessNext(t: Table, now: int): (Table, multiset<Delivery>) {
    if WithStatus(t, Running) != {} then (t, multiset{}) else
      var (t', next) := Drain(Celery, t, now);
      (t', if next.Some? then multiset{Delivery(next.value, 0)} else multiset{})
  }

  /** One step. A view that fails to send marks its row failed, or is lost like one that dies in between; the
      message of a lost worker is delivered again, that of a run ended by the hard time limit is not. */
  ghost function Next(s: State, e: Event): State
    requires Enabled(s, e)
  {
    var s := s.(clock := e.at);
    match e.action
    case Create(id, purl, priority, timeoutMinutes) =>
      s.(table := s.table[id := FreshRow(purl, priority, timeoutMinutes)])
    case Enqueue(v, id) =>
      var t := Appended(s.table, id, e.at);
      s.(table := t, views := s.views[v := View(id, t[id])])
    case Send(v) => s.(inbox := s.inbox + multiset{Delivery(s.views[v].id, 0)}, views := s.views - {v})
    case SendFails(v) =>
      var row := s.views[v].copy.(status := Failed, completedAt := Some(e.at));
      s.(table := s.table[s.views[v].id := row], views := s.views - {v})
    case LoseView(v) => s.(views := s.views - {v})
    case Redeliver(m) => s.(inbox := s.inbox + multiset{m})
    case Receive(x, m) => s.(inbox := s.inbox - multiset{m}, live := s.live[x := Execution(m, Begun)])
    case Work(x, outcome) => WorkStep(s, x, outcome)
    case WorkerLost(x) => s.(live := s.live - {x}, inbox := s.inbox + multiset{s.live[x].message})
    case TimeLimit(x) => s.(live := s.live - {x})
    case CheckTimeouts =>
      if TimedOutRows(s.table, e.at) != {} then Dispatch(s.(table := AllExpired(s.table, e.at))) else s
    case Cleanup(cutoff) => s.(table := CleanedUp(s.table, cutoff))
  }

  ghost function Dispatch(s: State): State {
    var (t, sent) := ProcessNext(s.table, s.clock);
    s.(table := t, inbox := s.inbox + sent)
  }

  function Goto(s: State, x: nat, p: Phase): State
    requires x in s.live
  {
    s.(live := s.live[x := s.live[x].(phase := p)])
  }

  /** Saves the whole row object, inserting the row again if it was deleted meanwhile. */
  function Save(s: State, x: nat, row: Task, p: Phase): State
    requires x in s.live
  {
    Goto(s.(table := s.table[s.live[x].message.id := row]), x, p)
  }

  function Exit(s: State, x: nat): State {
    s.(live := s.live - {x})
  }

  /** Schedules the message again; with the retries used up the exception is raised instead. */
  function Retry(s: State, x: nat, exhausted: State): State
    requires x in s.live
  {
    var m := s.live[x].message;
    if m.retries < MAX_RETRIES then Exit(s, x).(inbox := s.inbox + multiset{Delivery(m.id, m.retries + 1)})
    else exhausted
  }

  ghost function WorkStep(s: State, x: nat, outcome: Outcome): State
    requires x in s.live
  {
    var (t, now, id) := (s.table, s.clock, s.live[x].message.id);
    match s.live[x].phase
    case Begun => Begin(s, x)
    case Analysing(copy) =>
      (match outcome
       case Cached => Save(s, x, copy.(status := Completed, completedAt := Some(now)), Dispatching)
       case Raises(category) => Goto(s, x, Raised(category))
       case Done(_, _) =>
         if id !in t then Goto(s, x, Raised(UNKNOWN_ERROR))
         else if t[id].status == Running then
           var row := t[id].(heartbeat := Some(now));
           Save(s, x, row, Analysed(row))
         else Goto(s, x, Analysed(t[id])))
    case Analysed(copy) =>
      if outcome.Done? then
        var row := copy.(status := Completed, completedAt := Some(now), report := Some(outcome.reference));
        Save(s, x, row, Publishing(row))
      else Goto(s, x, Raised(if outcome.Raises? then outcome.category else UNKNOWN_ERROR))
    case Publishing(copy) =>
      if outcome.Done? && outcome.published then Save(s, x, copy.(downloadUrl := Some(outcome.reference)), Dispatching)
      else Goto(s, x, Dispatching)
    case Dispatching => Exit(Dispatch(s), x)
    case Raised(category) =>
      if id !in t then Goto(s, x, RaisedDispatching)
      else Save(s, x,
        t[id].(status := Failed, completedAt := Some(now), errorCategory := category, position := None),
        RaisedDispatching)
    case RaisedDispatching => var s' := Dispatch(s); Retry(s', x, Exit(s', x))
  }

  /** The opening transaction: it looks for another running row, but not at what the row itself is doing. */
  ghost function Begin(s: State, x: nat): State
    requires x in s.live
  {
    var (t, now, id) := (s.table, s.clock, s.live[x].message.id);
    if id !in t then Goto(s, x, Raised(UNKNOWN_ERROR))
    else if WithStatus(t, Running) - {id} != {} then Retry(s, x, Goto(s, x, Raised(UNKNOWN_ERROR)))
    else if t[id].status == Completed then Exit(s, x)
    else if Solved(Celery, t, t[id].purl) then
      Exit(Dispatch(s.(table := t[id := Linked(t[id], t[Donor(Celery, t, t[id].purl)], now)])), x)
    else
      var row := t[id].(status := Running, startedAt := Some(now), position := None, heartbeat := Some(now));
      Save(s, x, row, Analysing(row))
  }

  // ---------------------------------------------------------------- at most one running row

  ghost predicate Inv(s: State) {
    AtMostOneRunning(s.table) && PublishingCompleted(s)
  }

  /** Dispatching leaves every running row as it is, and makes none. */
  lemma DispatchSparesRunning(t: Table, now: int)
    ensures ProcessNext(t, now).0.Keys == t.Keys
    ensures forall id :: id in t && (t[id].status == Running || ProcessNext(t, now).0[id].status == Running) ==>
      ProcessNext(t, now).0[id] == t[id]
  {
    if WithStatus(t, Running) == {} {
      DrainEffect(Celery, t, now);
      forall id | id in t ensures t[id].status != Running {
        assert id !in WithStatus(t, Running);
      }
    }
  }

  ghost predicate NoNewRunning(t: Table, t': Table) {
    forall id :: id in t' && t'[id].status == Running ==> id in t && t[id].status == Running
  }

  /** Dispatching changes queued rows only. */
  lemma DispatchSparesFinished(t: Table, now: int)
    ensures ProcessNext(t, now).0.Keys == t.Keys
    ensures forall id :: id in t && t[id].status != Queued ==> ProcessNext(t, now).0[id] == t[id]
  {
    if WithStatus(t, Running) == {} {
      DrainEffect(Celery, t, now);
    }
  }

  lemma DispatchStarts(s: State, x: nat, outcome: Outcome)
    requires x in s.live && (s.live[x].phase.Dispatching? || s.live[x].phase.RaisedDispatching?)
    ensures NoNewRunning(s.table, WorkStep(s, x, outcome).table)
  {
    DispatchSparesRunning(s.table, s.clock);
  }

  lemma SaveStarts(s: State, x: nat, outcome: Outcome)
    requires Inv(s) && x in s.live
    requires var p := s.live[x].phase; p.Analysing? || p.Analysed? || p.Publishing? || p.Raised?
    ensures NoNewRunning(s.table, WorkStep(s, x, outcome).table)
  {}

  /** No step but the opening transaction of an execution makes a row running. */
  lemma OnlyBeginStarts(s: State, e: Event)
    requires Inv(s) && Enabled(s, e)
    requires e.action.Work? ==> !s.live[e.action.execution].phase.Begun?
    ensures NoNewRunning(s.table, Next(s, e).table)
  {
    var s' := s.(clock := e.at);
    match e.action {
      case CheckTimeouts =>
        if TimedOutRows(s.table, e.at) != {} {
          DispatchSparesRunning(AllExpired(s.table, e.at), e.at);
        }
      case Work(x, outcome) =>
        if s.live[x].phase.Dispatching? || s.live[x].phase.RaisedDispatching? {
          DispatchStarts(s', x, outcome);
        } else {
          SaveStarts(s', x, outcome);
        }
      case _ =>
    }
  }

  lemma BeginKeepsOneRunning(s: State, x: nat)
    requires Inv(s) && x in s.live
    ensures AtMostOneRunning(Begin(s, x).table)
  {
    var (t, id) := (s.table, s.live[x].message.id);
    if id in t {
      forall a | a in t && t[a].status == Running && a != id ensures a in WithStatus(t, Running) - {id} {}
      if Solved(Celery, t, t[id].purl) {
        DispatchSparesRunning(t[id := Linked(t[id], t[Donor(Celery, t, t[id].purl)], s.clock)], s.clock);
      }
    }
  }

  ghost predicate PublishingCompleted(s: State) {
    forall x :: x in s.live && s.live[x].phase.Publishing? ==> s.live[x].phase.copy.status == Completed
  }

  /** `s'` differs from `s` in the executions only at `x`, which is gone or in another phase. */
  ghost predicate OnlyMoves(s: State, s': State, x: nat) {
    && (forall y :: y in s'.live && y != x ==> y in s.live && s'.live[y] == s.live[y])
    && (x in s'.live && s'.live[x].phase.Publishing? ==> s'.live[x].phase.copy.status == Completed)
  }

  lemma BeginOnlyMoves(s: State, x: nat)
    requires x in s.live && s.live[x].phase.Begun?
    ensures OnlyMoves(s, Begin(s, x), x)
  {}

  lemma DispatchOnlyMoves(s: State, x: nat, outcome: Outcome)
    requires x in s.live && (s.live[x].phase.Dispatching? || s.live[x].phase.RaisedDispatching?)
    ensures OnlyMoves(s, WorkStep(s, x, outcome), x)
  {}

  lemma WorkKeepsPublishing(s: State, x: nat, outcome: Outcome)
    requires PublishingCompleted(s) && x in s.live
    ensures PublishingCompleted(WorkStep(s, x, outcome))
  {
    var p := s.live[x].phase;
    if p.Begun? {
      BeginOnlyMoves(s, x);
    } else if p.Dispatching? || p.RaisedDispatching? {
      DispatchOnlyMoves(s, x, outcome);
    } else {
      assert OnlyMoves(s, WorkStep(s, x, outcome), x);
    }
  }

  lemma StepKeepsInv(s: State, e: Event)
    requires Inv(s) && Enabled(s, e)
    ensures Inv(Next(s, e))
  {
    if e.action.Work? {
      WorkKeepsPublishing(s.(clock := e.at), e.action.execution, e.action.outcome);
    }
    if e.action.Work? && s.live[e.action.execution].phase.Begun? {
      BeginKeepsOneRunning(s.(clock := e.at), e.action.execution);
    } else {
      OnlyBeginStarts(s, e);
    }
  }
}
