/** What the queue manager guarantees over whole runs, in every interleaving. */
module QueueGuarantees {
  import opened Options
  import opened TaskTable
  import opened QueueProtocol

  // ---------------------------------------------------------------- runs

  ghost predicate Valid(s: State, es: seq<Event>)
    decreases |es|
  {
    es == [] || (Enabled(s, es[0]) && Valid(Next(s, es[0]), es[1..]))
  }

  ghost function Run(s: State, es: seq<Event>): State
    requires Valid(s, es)
    decreases |es|
  {
    if es == [] then s else Run(Next(s, es[0]), es[1..])
  }

  lemma {:induction false} RunKeepsInv(s: State, es: seq<Event>)
    requires Inv(s) && Valid(s, es)
    ensures Inv(Run(s, es))
    decreases |es|
  {
    if es != [] {
      StepKeepsInv(s, es[0]);
      RunKeepsInv(Next(s, es[0]), es[1..]);
    }
  }

  const Initial := State(map[], 0, map[], None, false)

  /** In every state that any run from an empty table reaches: at most one worker thread lives, at most one
      row is running, a row has a position exactly when it is queued, positions are distinct and positive and
      follow arrival among equal priorities, and both queue orders select the same row. */
  lemma QueueIsSound(es: seq<Event>)
    requires Valid(Initial, es)
    ensures
      var s := Run(Initial, es);
      && (forall a, b :: a in s.live && b in s.live ==> a == b)
      && AtMostOneRunning(s.table)
      && (forall id :: id in s.table ==>
            (s.table[id].status == Queued <==> s.table[id].position.Some?)
            && (s.table[id].status == Queued ==> s.table[id].position.value >= 1))
      && (forall a, b :: (a in s.table && b in s.table && a != b && s.table[a].status == Queued
                          && s.table[b].status == Queued) ==>
            s.table[a].position != s.table[b].position
            && s.table[a].queuedAt.Some? && s.table[b].queuedAt.Some?
            && (s.table[a].priority == s.table[b].priority && s.table[a].position.value < s.table[b].position.value ==>
                  s.table[a].queuedAt.value < s.table[b].queuedAt.value))
      && HeadByPosition(s.table) == HeadByArrival(s.table)
  {
    assert QueueOk(Initial.table, 0);
    RunKeepsInv(Initial, es);
    var s := Run(Initial, es);
    HeadsAgree(s.table, s.clock);
    forall id | id in s.table ensures RowOk(s.table[id], s.clock) {}
    forall a, b | a in s.table && b in s.table && a != b && s.table[a].status == Queued && s.table[b].status == Queued
      ensures Agree(s.table[a], s.table[b])
    {}
  }

  // ---------------------------------------------------------------- one step

  /** How one step of a worker in phase `p` may change row `id` from `r` to `r'`. */
  predicate RowStep(p: Phase, id: nat, r: Task, r': Task) {
    && SameTask(r, r')
    && (|| r' == r
        || (r.status == Queued && r' == r.(position := r'.position))
        || (p.Sweeping? && r.status == Running && r'.status == Failed)
        || (p.Selecting? && r.status == Queued && r'.status == Completed)
        || (p.Raised? && p.id == id && r'.status == Failed)
        || (p.Picked? && p.id == id && r'.status == Running)
        || (p.Analysing? && p.id == id && r'.status == Running)
        || (p.Saving? && p.id == id && r'.status == Completed)
        || (p.Publishing? && p.id == id && r'.status == Completed && r'.report == p.copy.report))
  }

  lemma DrainRow(t: Table, now: int, id: nat)
    requires QueueOk(t, now) && WithStatus(t, Running) == {} && id in t
    ensures id in Drain(Manager, t, now).0 && RowStep(Selecting, id, t[id], Drain(Manager, t, now).0[id])
  {
    DrainPrefix(Manager, t, now);
    var q := Listing(t);
    var k: nat :| DrainsTo(Manager, t, q, k, now, Drain(Manager, t, now));
    if id in q {
      var i :| 0 <= i < |q| && q[i] == id;
      if i < k {
        assert CompletedFrom(Manager, t, t[id], Drain(Manager, t, now).0[id], now);
      }
    }
  }

  lemma WorkKeepsRows(s: State, e: Event)
    requires Inv(s) && Enabled(s, e) && e.action.Work?
    ensures Next(s, e).table.Keys == s.table.Keys
  {
    assert PhaseOk(s.table, s.live[e.action.thread]);
    if s.live[e.action.thread].Selecting? && WithStatus(s.table, Running) == {} {
      LaterKeepsOk(s.table, s.clock, e.at);
      DrainEffect(Manager, s.table, e.at);
    }
  }

  lemma SelectionRow(s: State, e: Event, id: nat)
    requires Inv(s) && Enabled(s, e) && Selects(s, e) && id in s.table
    ensures id in Next(s, e).table
    ensures RowStep(Selecting, id, s.table[id], Next(s, e).table[id])
  {
    LaterKeepsOk(s.table, s.clock, e.at);
    DrainRow(s.table, e.at, id);
  }

  lemma WorkRow(s: State, e: Event, id: nat)
    requires Inv(s) && Enabled(s, e) && e.action.Work? && id in s.table
    ensures id in Next(s, e).table
    ensures RowStep(s.live[e.action.thread], id, s.table[id], Next(s, e).table[id])
  {
    if Selects(s, e) {
      SelectionRow(s, e, id);
    } else if s.live[e.action.thread].Picked? || s.live[e.action.thread].Analysing? || s.live[e.action.thread].Saving? {
      SavedRow(s, e, id);
    } else {
      OtherRow(s, e, id);
    }
  }

  lemma SavedRow(s: State, e: Event, id: nat)
    requires Inv(s) && Enabled(s, e) && e.action.Work? && id in s.table
    requires var p := s.live[e.action.thread]; p.Picked? || p.Analysing? || p.Saving?
    ensures id in Next(s, e).table
    ensures RowStep(s.live[e.action.thread], id, s.table[id], Next(s, e).table[id])
  {
    assert PhaseOk(s.table, s.live[e.action.thread]);
  }

  lemma OtherRow(s: State, e: Event, id: nat)
    requires Inv(s) && Enabled(s, e) && e.action.Work? && id in s.table && !Selects(s, e)
    requires var p := s.live[e.action.thread]; !p.Picked? && !p.Analysing? && !p.Saving?
    ensures id in Next(s, e).table
    ensures RowStep(s.live[e.action.thread], id, s.table[id], Next(s, e).table[id])
  {
    assert PhaseOk(s.table, s.live[e.action.thread]);
  }

  /** A finished row keeps its status and its report, in every step but one that submits that very row
      again: adding a task to the queue does not look at its status. */
  lemma FinishedIsFinal(s: State, e: Event, id: nat)
    requires Inv(s) && Enabled(s, e) && id in s.table
    requires s.table[id].status == Completed || s.table[id].status == Failed
    ensures id in Next(s, e).table
    ensures
      var row := Next(s, e).table[id];
      (row.status == s.table[id].status && row.report == s.table[id].report) <==> e.action != Submit(id)
  {
    if e.action.Work? {
      assert PhaseOk(s.table, s.live[e.action.thread]);
      WorkRow(s, e, id);
    }
  }

  /** The only way a row becomes running: the worker starts the row it picked, when no other row runs and no
      completed row of the same package has a report; or it saves its heartbeat over a row that somebody
      submitted again while it was being analysed. */
  lemma StartsOnlyUnsolved(s: State, e: Event, id: nat)
    requires Inv(s) && Enabled(s, e) && id in s.table && id in Next(s, e).table
    requires s.table[id].status != Running && Next(s, e).table[id].status == Running
    ensures e.action.Work?
    ensures
      var p := s.live[e.action.thread];
      && OnlyRunning(s.table, {})
      && ((p.Picked? && p.id == id && Donors(s.table, s.table[id].purl) == {})
          || (p.Analysing? && p.id == id && s.table[id].status == Queued))
  {
    if e.action.Work? {
      assert PhaseOk(s.table, s.live[e.action.thread]);
      WorkRow(s, e, id);
    }
  }

  // ---------------------------------------------------------------- bounded waiting

  /** Row `u` is queued, and is `id` or ahead of it. */
  predicate InFront(t: Table, u: nat, id: nat)
    requires id in t
  {
    u in t && t[u].status == Queued && (u == id || KeyLess(ArrivalKey(t, u), ArrivalKey(t, id)))
  }

  /** The worker has picked a row in front that it has not started yet. */
  ghost predicate Holding(s: State, id: nat)
    requires id in s.table
  {
    exists thread :: thread in s.live && s.live[thread].Picked? && InFront(s.table, s.live[thread].id, id)
  }

  /** How many more rows the worker can select before row `id` leaves the queue. */
  ghost function Wait(s: State, id: nat): nat
    requires id in s.table
  {
    if Holding(s, id) then |Ahead(s.table, id)| else 1 + |Ahead(s.table, id)|
  }

  /** A selection that is not put off by a running row. */
  ghost predicate Selects(s: State, e: Event)
    requires Enabled(s, e)
  {
    e.action.Work? && s.live[e.action.thread].Selecting? && WithStatus(s.table, Running) == {}
  }

  /** A submission of the row itself or of a row of higher priority. */
  predicate Overtakes(s: State, e: Event, id: nat)
    requires id in s.table
  {
    e.action.Submit? && e.action.id in s.table
    && (e.action.id == id || s.table[e.action.id].priority > s.table[id].priority)
  }

  predicate IsQueued(s: State, id: nat) {
    id in s.table && s.table[id].status == Queued
  }

  /** Rows that stay queued with their key, none joining, leave no more rows ahead than before. */
  lemma AheadShrinks(t: Table, t': Table, id: nat, gone: nat)
    requires id in t && id in t' && ArrivalKey(t', id) == ArrivalKey(t, id)
    requires forall x :: x in t' && t'[x].status == Queued && x != gone ==>
      x in t && t[x].status == Queued && ArrivalKey(t', x) == ArrivalKey(t, x)
    requires gone !in Ahead(t', id)
    ensures Ahead(t', id) <= Ahead(t, id) - {gone}
    ensures |Ahead(t', id)| <= |Ahead(t, id)|
    ensures gone in Ahead(t, id) ==> |Ahead(t', id)| < |Ahead(t, id)|
  {
    SubsetSize(Ahead(t', id), Ahead(t, id) - {gone});
  }

  lemma WorkShrinksAhead(s: State, e: Event, id: nat, gone: nat)
    requires Inv(s) && Enabled(s, e) && e.action.Work? && IsQueued(s, id) && IsQueued(Next(s, e), id)
    requires gone == id || (gone in Next(s, e).table && Next(s, e).table[gone].status != Queued)
    ensures
      var (t, t') := (s.table, Next(s, e).table);
      && ArrivalKey(t', id) == ArrivalKey(t, id)
      && |Ahead(t', id)| <= |Ahead(t, id)|
      && (gone in Ahead(t, id) ==> |Ahead(t', id)| < |Ahead(t, id)|)
  {
    var (t, t') := (s.table, Next(s, e).table);
    WorkKeepsRows(s, e);
    WorkRow(s, e, id);
    forall x | x in t' && t'[x].status == Queued
      ensures t[x].status == Queued && ArrivalKey(t', x) == ArrivalKey(t, x) {
      WorkRow(s, e, x);
    }
    AheadShrinks(t, t', id, gone);
  }

  lemma SelectionShortensWait(s: State, e: Event, id: nat)
    requires Inv(s) && Enabled(s, e) && Selects(s, e) && IsQueued(s, id) && IsQueued(Next(s, e), id)
    ensures Wait(Next(s, e), id) < Wait(s, id)
  {
    var s' := Next(s, e);
    LaterKeepsOk(s.table, s.clock, e.at);
    DrainEffect(Manager, s.table, e.at);
    WorkShrinksAhead(s, e, id, id);
    assert !Holding(s, id);
    assert id in WithStatus(s'.table, Queued);
    var next := s'.live[e.action.thread].id;
    assert InFront(s'.table, next, id);
    assert Holding(s', id);
  }

  lemma StartKeepsWait(s: State, e: Event, id: nat)
    requires Inv(s) && Enabled(s, e) && e.action.Work? && s.live[e.action.thread].Picked?
    requires IsQueued(s, id) && IsQueued(Next(s, e), id)
    ensures Wait(Next(s, e), id) <= Wait(s, id)
  {
    var u := s.live[e.action.thread].id;
    assert PhaseOk(s.table, s.live[e.action.thread]);
    assert u in Next(s, e).table;
    WorkShrinksAhead(s, e, id, u);
    if Holding(s, id) {
      assert u in Ahead(s.table, id);
    }
  }

  lemma OtherWorkKeepsWait(s: State, e: Event, id: nat)
    requires Inv(s) && Enabled(s, e) && e.action.Work? && !Selects(s, e) && !s.live[e.action.thread].Picked?
    requires IsQueued(s, id) && IsQueued(Next(s, e), id)
    ensures Wait(Next(s, e), id) <= Wait(s, id)
  {
    WorkShrinksAhead(s, e, id, id);
    assert !Holding(s, id);
  }

  lemma SubmissionGoesBehind(s: State, e: Event, id: nat)
    requires Inv(s) && Enabled(s, e) && (e.action.Submit? || e.action.Create?)
    requires IsQueued(s, id) && !Overtakes(s, e, id)
    ensures IsQueued(Next(s, e), id) && Next(s, e).table[id] == s.table[id]
    ensures e.action.id !in Ahead(Next(s, e).table, id)
  {
    assert RowOk(s.table[id], s.clock);
  }

  lemma SubmissionShrinksAhead(s: State, e: Event, id: nat)
    requires Inv(s) && Enabled(s, e) && (e.action.Submit? || e.action.Create?)
    requires IsQueued(s, id) && !Overtakes(s, e, id)
    ensures IsQueued(Next(s, e), id)
    ensures
      var (a, a') := (|Ahead(s.table, id)|, |Ahead(Next(s, e).table, id)|);
      a' <= a && (e.action.id in Ahead(s.table, id) ==> a' < a)
  {
    SubmissionGoesBehind(s, e, id);
    AheadShrinks(s.table, Next(s, e).table, id, e.action.id);
  }

  lemma SubmissionReleases(s: State, e: Event, id: nat)
    requires Inv(s) && Enabled(s, e) && (e.action.Submit? || e.action.Create?)
    requires IsQueued(s, id) && IsQueued(Next(s, e), id) && !Overtakes(s, e, id)
    requires Holding(s, id) && !Holding(Next(s, e), id)
    ensures e.action.id in Ahead(s.table, id)
  {
    var thread :| thread in s.live && s.live[thread].Picked? && InFront(s.table, s.live[thread].id, id);
    assert s.live[thread].id == e.action.id;
  }

  lemma SubmissionKeepsWait(s: State, e: Event, id: nat)
    requires Inv(s) && Enabled(s, e) && (e.action.Submit? || e.action.Create?)
    requires IsQueued(s, id) && !Overtakes(s, e, id)
    ensures IsQueued(Next(s, e), id) && Wait(Next(s, e), id) <= Wait(s, id)
  {
    SubmissionShrinksAhead(s, e, id);
    if Holding(s, id) && !Holding(Next(s, e), id) {
      SubmissionReleases(s, e, id);
    }
  }

  /** One step: a selection uses up one row of the wait, nothing but a crash lengthens it. */
  lemma WaitStep(s: State, e: Event, id: nat)
    requires Inv(s) && Enabled(s, e) && IsQueued(s, id) && IsQueued(Next(s, e), id) && !Overtakes(s, e, id)
    ensures Wait(Next(s, e), id) + (if Selects(s, e) then 1 else 0) <= Wait(s, id) + (if e.action.Crash? then 1 else 0)
  {
    match e.action {
      case Create(_, _, _, _) => SubmissionKeepsWait(s, e, id);
      case Submit(_) => SubmissionKeepsWait(s, e, id);
      case Work(thread, _, _, _) =>
        if Selects(s, e) {
          SelectionShortensWait(s, e, id);
        } else if s.live[thread].Picked? {
          StartKeepsWait(s, e, id);
        } else {
          OtherWorkKeepsWait(s, e, id);
        }
      case EnsureWorker(thread) =>
        if Holding(s, id) {
          var other :| other in s.live && s.live[other].Picked? && InFront(s.table, s.live[other].id, id);
          assert s.current == Some(other);
        }
      case StopWorker =>
      case Crash =>
    }
  }

  // Over a run.

  /** Row `id` is queued in every state of the run, and nothing overtakes it. */
  ghost predicate StaysQueued(s: State, es: seq<Event>, id: nat)
    requires Valid(s, es)
    decreases |es|
  {
    && IsQueued(s, id)
    && (es != [] ==> !Overtakes(s, es[0], id) && StaysQueued(Next(s, es[0]), es[1..], id))
  }

  ghost function Selections(s: State, es: seq<Event>): nat
    requires Valid(s, es)
    decreases |es|
  {
    if es == [] then 0 else (if Selects(s, es[0]) then 1 else 0) + Selections(Next(s, es[0]), es[1..])
  }

  function Crashes(es: seq<Event>): nat {
    if es == [] then 0 else (if es[0].action.Crash? then 1 else 0) + Crashes(es[1..])
  }

  lemma {:induction false} SelectionsBounded(s: State, es: seq<Event>, id: nat)
    requires Inv(s) && Valid(s, es) && StaysQueued(s, es, id)
    ensures Selections(s, es) <= Wait(s, id) + Crashes(es)
    decreases |es|
  {
    if es != [] {
      WaitStep(s, es[0], id);
      StepKeepsInv(s, es[0]);
      SelectionsBounded(Next(s, es[0]), es[1..], id);
    }
  }

  /** Bounded waiting: while a row with k rows ahead of it stays queued, the worker makes at most k + 1
      selections that no running row puts off, plus one for every crash of the process, however many rows of
      equal or lower priority are submitted meanwhile. */
  lemma BoundedWaiting(s: State, es: seq<Event>, id: nat)
    requires Inv(s) && Valid(s, es) && StaysQueued(s, es, id)
    ensures Selections(s, es) <= |Ahead(s.table, id)| + 1 + Crashes(es)
  {
    SelectionsBounded(s, es, id);
  }
}
