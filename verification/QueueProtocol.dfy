/** The queue manager as a state machine: submitters, start and stop calls, process crashes and the worker
    thread interleave, one database transaction per step. */
module QueueProtocol {
  import opened Options
  import opened TaskTable
  import opened QueueManager

  /** Where a worker thread is in its loop. `copy` is the row object it holds and saves from. */
  datatype Phase =
    | LoopTop
    | Sweeping
    | Selecting
    | Picked(id: nat, copy: Task)
    | Analysing(id: nat, copy: Task)
    | Saving(id: nat, copy: Task)
    | Raised(id: nat, copy: Task, category: string)
    | Publishing(id: nat, copy: Task)
    | Renumbering

  /** `live` holds the running worker threads, `current` the thread the manager remembers. */
  datatype State = State(table: Table, clock: int, live: map<nat, Phase>, current: Option<nat>, stop: bool)

  datatype Action =
    | Create(id: nat, purl: string, priority: nat, timeoutMinutes: nat)
    | Submit(id: nat)
    | EnsureWorker(thread: nat)
    | StopWorker
    | Crash
    | Work(thread: nat, raises: Option<string>, reference: nat, published: bool)

  /** One step, at clock reading `at`. */
  datatype Event = Event(at: int, action: Action)

  predicate Enabled(s: State, e: Event) {
    && s.clock < e.at
    && match e.action
       case Create(id, _, _, _) => id !in s.table
       case Submit(id) => id in s.table
       case EnsureWorker(thread) => thread !in s.live
       case Work(thread, _, _, _) => thread in s.live
       case _ => true
  }

  ghost function Next(s: State, e: Event): State
    requires Enabled(s, e)
  {
    var s := s.(clock := e.at);
    match e.action
    case Create(id, purl, priority, timeoutMinutes) =>
      s.(table := s.table[id := FreshRow(purl, priority, timeoutMinutes)])
    case Submit(id) => s.(table := Enqueued(s.table, id, e.at))
    case EnsureWorker(thread) =>
      if s.current.Some? && s.current.value in s.live then s
      else s.(stop := false, live := s.live[thread := LoopTop], current := Some(thread))
    case StopWorker => if s.current.Some? && s.current.value in s.live then s.(stop := true) else s
    case Crash => s.(live := map[], current := None, stop := false)
    case Work(thread, raises, reference, published) => WorkStep(s, thread, raises, reference, published)
  }

  ghost function WorkStep(s: State, thread: nat, raises: Option<string>, reference: nat, published: bool): State
    requires thread in s.live
  {
    var (t, now) := (s.table, s.clock);
    match s.live[thread]
    case LoopTop => if s.stop then s.(live := s.live - {thread}) else Goto(s, thread, t, Sweeping)
    case Sweeping => Goto(s, thread, Swept(t, now), Selecting)
    case Selecting =>
      if WithStatus(t, Running) != {} then Goto(s, thread, t, LoopTop) else
        var (t', next) := Drain(Manager, t, now);
        Goto(s, thread, t', if next.Some? && next.value in t' then Picked(next.value, t'[next.value]) else LoopTop)
    case Picked(id, copy) => Save(s, thread, Analysing(id, Started(copy, now)))
    case Analysing(id, copy) =>
      if raises.Some? then Goto(s, thread, t, Raised(id, copy, raises.value))
      else Save(s, thread, Saving(id, copy.(heartbeat := Some(now))))
    case Saving(id, copy) =>
      if raises.Some? then Goto(s, thread, t, Raised(id, copy, raises.value))
      else Save(s, thread, Publishing(id, Completing(copy, reference, now)))
    case Publishing(id, copy) =>
      Goto(s, thread, if published then t[id := copy.(downloadUrl := Some(reference))] else t, Renumbering)
    case Raised(id, copy, category) => Goto(s, thread, t[id := Failing(copy, category, now)], Renumbering)
    case Renumbering => Goto(s, thread, Renumbered(t), LoopTop)
  }

  function Goto(s: State, thread: nat, t: Table, p: Phase): State {
    s.(table := t, live := s.live[thread := p])
  }

  /** Saves the whole row object that the new phase holds. */
  function Save(s: State, thread: nat, p: Phase): State
    requires p.Analysing? || p.Saving? || p.Publishing?
  {
    Goto(s, thread, s.table[p.id := p.copy], p)
  }

  // ---------------------------------------------------------------- the invariant

  ghost predicate PhaseOk(t: Table, p: Phase) {
    match p
    case Picked(id, copy) =>
      && id in t && t[id].status == Queued && SameTask(copy, t[id])
      && OnlyRunning(t, {}) && Donors(t, copy.purl) == {}
    case Publishing(id, copy) =>
      && id in t && SameTask(copy, t[id]) && copy.status == Completed && copy.position == None
      && (t[id].status == Completed || t[id].status == Queued) && OnlyRunning(t, {})
      && (t[id].status == Completed ==> t[id].report == copy.report)
    case LoopTop => true
    case Sweeping => true
    case Selecting => true
    case Renumbering => true
    case _ =>
      && p.id in t && SameTask(p.copy, t[p.id]) && p.copy.status == Running && p.copy.position == None
      && (t[p.id].status == Running || t[p.id].status == Queued) && OnlyRunning(t, {p.id})
  }

  ghost predicate Inv(s: State) {
    && QueueOk(s.table, s.clock)
    && AtMostOneRunning(s.table)
    && (forall thread :: thread in s.live ==> s.current == Some(thread))
    && (forall thread :: thread in s.live ==> PhaseOk(s.table, s.live[thread]))
  }

  // Steps on the table alone.

  lemma LaterKeepsOk(t: Table, clock: int, now: int)
    requires QueueOk(t, clock) && clock <= now
    ensures QueueOk(t, now)
  {
    forall id | id in t ensures RowOk(t[id], now) {
      assert RowOk(t[id], clock);
    }
  }

  lemma PutKeepsOk(t: Table, id: nat, row: Task, now: int)
    requires QueueOk(t, now) && row.status != Queued && row.position == None
    ensures QueueOk(t[id := row], now)
  {
    var u := t[id := row];
    forall x | x in u ensures RowOk(u[x], now) {
      assert x != id ==> RowOk(t[x], now);
    }
    forall a, b | a in u && b in u && a != b && u[a].status == Queued && u[b].status == Queued
      ensures Agree(u[a], u[b]) {
      assert Agree(t[a], t[b]);
    }
  }

  lemma SweptKeepsOk(t: Table, now: int)
    requires QueueOk(t, now)
    ensures QueueOk(Swept(t, now), now)
  {
    var u := AllExpired(t, now);
    forall x | x in u ensures RowOk(u[x], now) {
      assert RowOk(t[x], now);
    }
    forall a, b | a in u && b in u && a != b && u[a].status == Queued && u[b].status == Queued
      ensures Agree(u[a], u[b]) {
      assert Agree(t[a], t[b]);
    }
    RenumberedKeepsOk(u, now);
  }

  /** A row enters the queue, or a fresh one is created, while the worker is anywhere in its loop. */
  lemma PhaseSurvivesPut(t: Table, p: Phase, id: nat, row: Task)
    requires PhaseOk(t, p) && (row.status == Queued || row.status == Pending)
    requires if id in t then SameTask(row, t[id]) && row.status == Queued && row.report == t[id].report
      else row.status == Pending
    ensures PhaseOk(t[id := row], p)
  {
    var u := t[id := row];
    if p.Picked? {
      forall d | d in u ensures d !in Donors(u, p.copy.purl) {
        assert d !in Donors(t, p.copy.purl);
      }
    }
  }

  ghost predicate WorkOk(s: State, thread: nat) {
    && AtMostOneRunning(s.table)
    && (thread in s.live ==> PhaseOk(s.table, s.live[thread]))
  }

  lemma PutAlone(t: Table, id: nat, row: Task)
    requires OnlyRunning(t, {id})
    ensures AtMostOneRunning(t[id := row]) && OnlyRunning(t[id := row], {id})
    ensures row.status != Running ==> OnlyRunning(t[id := row], {})
  {}

  lemma SaveKeepsPhase(s: State, thread: nat, raises: Option<string>, reference: nat, published: bool)
    requires Inv(s) && thread in s.live
    requires var p := s.live[thread]; p.Picked? || p.Analysing? || p.Saving?
    ensures WorkOk(WorkStep(s, thread, raises, reference, published), thread)
  {
    var (t, now) := (s.table, s.clock);
    assert PhaseOk(t, s.live[thread]);
    match s.live[thread] {
      case Picked(id, copy) => PutAlone(t, id, Started(copy, now));
      case Analysing(id, copy) => PutAlone(t, id, copy.(heartbeat := Some(now)));
      case Saving(id, copy) => PutAlone(t, id, Completing(copy, reference, now));
    }
  }

  lemma FinishKeepsPhase(s: State, thread: nat, raises: Option<string>, reference: nat, published: bool)
    requires Inv(s) && thread in s.live
    requires var p := s.live[thread]; p.Publishing? || p.Raised? || p.Renumbering?
    ensures WorkOk(WorkStep(s, thread, raises, reference, published), thread)
  {
    var (t, now) := (s.table, s.clock);
    assert PhaseOk(t, s.live[thread]);
    match s.live[thread] {
      case Publishing(id, copy) => PutAlone(t, id, copy.(downloadUrl := Some(reference)));
      case Raised(id, copy, category) => PutAlone(t, id, Failing(copy, category, now));
      case Renumbering =>
    }
  }

  lemma PollKeepsPhase(s: State, thread: nat, raises: Option<string>, reference: nat, published: bool)
    requires Inv(s) && thread in s.live
    requires var p := s.live[thread]; p.LoopTop? || p.Sweeping? || p.Selecting?
    ensures WorkOk(WorkStep(s, thread, raises, reference, published), thread)
  {
    if s.live[thread].Selecting? && WithStatus(s.table, Running) == {} {
      DrainEffect(Manager, s.table, s.clock);
    }
  }

  lemma WorkKeepsPhase(s: State, thread: nat, raises: Option<string>, reference: nat, published: bool)
    requires Inv(s) && thread in s.live
    ensures WorkOk(WorkStep(s, thread, raises, reference, published), thread)
  {
    var p := s.live[thread];
    if p.Picked? || p.Analysing? || p.Saving? {
      SaveKeepsPhase(s, thread, raises, reference, published);
    } else if p.Publishing? || p.Raised? || p.Renumbering? {
      FinishKeepsPhase(s, thread, raises, reference, published);
    } else {
      PollKeepsPhase(s, thread, raises, reference, published);
    }
  }

  lemma WorkKeepsQueue(s: State, thread: nat, raises: Option<string>, reference: nat, published: bool)
    requires Inv(s) && thread in s.live
    ensures QueueOk(WorkStep(s, thread, raises, reference, published).table, s.clock)
  {
    var (t, now) := (s.table, s.clock);
    assert PhaseOk(t, s.live[thread]);
    match s.live[thread] {
      case LoopTop =>
      case Sweeping => SweptKeepsOk(t, now);
      case Selecting => DrainKeepsOk(t, now);
      case Picked(id, copy) => PutKeepsOk(t, id, Started(copy, now), now);
      case Analysing(id, copy) => PutKeepsOk(t, id, copy.(heartbeat := Some(now)), now);
      case Saving(id, copy) => PutKeepsOk(t, id, Completing(copy, reference, now), now);
      case Publishing(id, copy) => PutKeepsOk(t, id, copy.(downloadUrl := Some(reference)), now);
      case Raised(id, copy, category) => PutKeepsOk(t, id, Failing(copy, category, now), now);
      case Renumbering => RenumberedKeepsOk(t, now);
    }
  }

  lemma SubmissionKeepsInv(s: State, e: Event)
    requires Inv(s) && Enabled(s, e) && (e.action.Create? || e.action.Submit?)
    ensures Inv(Next(s, e))
  {
    var (t, id, u) := (s.table, e.action.id, Next(s, e).table);
    LaterKeepsOk(t, s.clock, e.at);
    if e.action.Create? {
      PutKeepsOk(t, id, u[id], e.at);
    } else {
      EnqueuedKeepsOk(t, id, s.clock, e.at);
    }
    forall thread | thread in s.live ensures PhaseOk(u, s.live[thread]) {
      PhaseSurvivesPut(t, s.live[thread], id, u[id]);
    }
  }

  lemma WorkKeepsInv(s: State, e: Event)
    requires Inv(s) && Enabled(s, e) && e.action.Work?
    ensures Inv(Next(s, e))
  {
    LaterKeepsOk(s.table, s.clock, e.at);
    var (s', a) := (s.(clock := e.at), e.action);
    WorkKeepsPhase(s', a.thread, a.raises, a.reference, a.published);
    WorkKeepsQueue(s', a.thread, a.raises, a.reference, a.published);
    WorkTouchesOneThread(s', a.thread, a.raises, a.reference, a.published);
  }

  lemma WorkTouchesOneThread(s: State, thread: nat, raises: Option<string>, reference: nat, published: bool)
    requires thread in s.live
    ensures
      var s' := WorkStep(s, thread, raises, reference, published);
      s'.current == s.current && s'.clock == s.clock && s'.stop == s.stop
      && s'.live.Keys <= s.live.Keys && forall other :: other in s'.live && other != thread ==>
        s'.live[other] == s.live[other]
  {}

  /** Every step of every participant keeps the invariant. */
  lemma StepKeepsInv(s: State, e: Event)
    requires Inv(s) && Enabled(s, e)
    ensures Inv(Next(s, e))
  {
    match e.action {
      case Create(_, _, _, _) => SubmissionKeepsInv(s, e);
      case Submit(_) => SubmissionKeepsInv(s, e);
      case Work(_, _, _, _) => WorkKeepsInv(s, e);
      case _ => LaterKeepsOk(s.table, s.clock, e.at);
    }
  }
}
