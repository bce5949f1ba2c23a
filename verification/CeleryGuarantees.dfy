/** What the Celery path guarantees over whole runs: one running row always, one container only under
    conditions that are stated exactly. */
module CeleryGuarantees {
  import opened Options
  import opened TaskTable
  import opened CeleryProtocol

  ghost predicate Valid(s: State, es: seq<Event>)
    decreases |es|
  {
    es == [] || (Enabled(s, es[0]) && Valid(Next(s, es[0]), es[1..]))
  }

  ghost function Run(s: State, es: seq<Event>): State
    requires Valid(s, es)
    decreases |es|
  {
    if es == [] then s else Run(Next(s, es[0]), es[1..])
  }

  const Initial := State(map[], 0, multiset{}, map[], map[])

  lemma {:induction false} RunKeepsInv(s: State, es: seq<Event>)
    requires Inv(s) && Valid(s, es)
    ensures Inv(Run(s, es))
    decreases |es|
  {
    if es != [] {
      StepKeepsInv(s, es[0]);
      RunKeepsInv(Next(s, es[0]), es[1..]);
    }
  }

  /** Whatever is delivered, duplicated, lost, retried, timed out or deleted, and in whatever order the
      transactions interleave, at most one row has status running. */
  lemma AtMostOneRowRuns(es: seq<Event>)
    requires Valid(Initial, es)
    ensures AtMostOneRunning(Run(Initial, es).table)
  {
    RunKeepsInv(Initial, es);
  }

  /** The first `k` rows of the queue were completed, the rest renumbered, and row `k`, if any, was sent. */
  ghost predicate Serves(t: Table, now: int, k: nat, result: (Table, multiset<Delivery>)) {
    && k <= |Listing(t)|
    && (exists next :: DrainsTo(Celery, t, Listing(t), k, now, (result.0, next)))
    && result.1 == if k < |Listing(t)| then multiset{Delivery(Listing(t)[k], 0)} else multiset{}
  }

  /** Dispatching while no row runs completes exactly the solved prefix of the queue, renumbers the rest from
      1 if there was one, and sends one message, for the first unsolved row; while a row runs it does nothing. */
  lemma DispatchServesQueue(t: Table, now: int)
    ensures WithStatus(t, Running) != {} ==> ProcessNext(t, now) == (t, multiset{})
    ensures WithStatus(t, Running) == {} ==> exists k: nat :: Serves(t, now, k, ProcessNext(t, now))
  {
    if WithStatus(t, Running) == {} {
      DrainPrefix(Celery, t, now);
      var (t', next) := Drain(Celery, t, now);
      var k: nat :| DrainsTo(Celery, t, Listing(t), k, now, (t', next));
      assert ProcessNext(t, now).0 == t';
      assert Serves(t, now, k, ProcessNext(t, now));
    }
  }

  // ---------------------------------------------------------------- one container

  predicate Works(s: State, x: nat) {
    x in s.live && s.live[x].phase.Analysing?
  }

  /** The row that an execution is analysing is marked running. */
  ghost predicate Coherent(s: State) {
    forall x :: Works(s, x) ==> s.live[x].message.id in s.table && s.table[s.live[x].message.id].status == Running
  }

  /** No two executions handle the same row. */
  ghost predicate Exclusive(s: State) {
    forall x, y :: x in s.live && y in s.live && s.live[x].message.id == s.live[y].message.id ==> x == y
  }

  /** What the opening transaction of an execution asks of the table: its row exists, is not completed, has no
      result yet, and no other row is marked running. */
  predicate Opens(t: Table, id: nat) {
    id in t && t[id].status != Completed && !Solved(Celery, t, t[id].purl) && WithStatus(t, Running) <= {id}
  }

  lemma BeginWorksIff(s: State, y: nat)
    requires y in s.live && s.live[y].phase.Begun?
    ensures Works(Begin(s, y), y) <==> Opens(s.table, s.live[y].message.id)
  {
    var (t, id) := (s.table, s.live[y].message.id);
    assert WithStatus(t, Running) - {id} == {} <==> WithStatus(t, Running) <= {id};
  }

  /** While one execution analyses a row, the opening transaction of another starts a second container if and only
      if the table lets it, whatever the other does; and then its message is for that very row, or that row is no
      longer marked running. */
  lemma SecondContainerIff(s: State, x: nat, y: nat)
    requires Works(s, x) && y in s.live && s.live[y].phase.Begun?
    ensures
      var (t, own, id) := (s.table, s.live[x].message.id, s.live[y].message.id);
      && (Works(Begin(s, y), x) && Works(Begin(s, y), y) <==> Opens(t, id))
      && (Opens(t, id) ==> id == own || own !in t || t[own].status != Running)
  {
    var (t, own) := (s.table, s.live[x].message.id);
    BeginWorksIff(s, y);
    BeginOnlyMoves(s, y);
    BeginKeepsOther(s, x, y);
    assert own in t && t[own].status == Running ==> own in WithStatus(t, Running);
  }

  lemma BeginKeepsOther(s: State, x: nat, y: nat)
    requires x in s.live && y in s.live && x != y
    ensures x in Begin(s, y).live && Begin(s, y).live[x] == s.live[x]
  {}

  // ---------------------------------------------------------------- one container over a run

  ghost predicate Single(s: State) {
    forall x, y :: Works(s, x) && Works(s, y) ==> x == y
  }

  /** The step is an opening transaction that the table lets start while another execution works. */
  ghost predicate Crowds(s: State, e: Event)
    requires Enabled(s, e)
  {
    e.action.Work? && s.live[e.action.execution].phase.Begun?
    && Opens(s.table, s.live[e.action.execution].message.id)
    && exists x :: x != e.action.execution && Works(s, x)
  }

  lemma WorkStaysOrBegins(s: State, e: Event, x: nat)
    requires Enabled(s, e) && Works(Next(s, e), x)
    ensures Works(s, x) || (e.action.Work? && e.action.execution == x && s.live[x].phase.Begun?)
  {
    if e.action.Work? {
      WorkKeepsLive(s.(clock := e.at), e.action.execution, e.action.outcome);
      if x == e.action.execution {
        OwnWork(s.(clock := e.at), x, e.action.outcome);
      }
    }
  }

  lemma CrowdingIsTwo(s: State, e: Event)
    requires Enabled(s, e) && Crowds(s, e)
    ensures !Single(Next(s, e))
  {
    var (y, s') := (e.action.execution, s.(clock := e.at));
    var x :| x != y && Works(s, x);
    BeginWorksIff(s', y);
    BeginKeepsOther(s', x, y);
    assert Works(Next(s, e), x) && Works(Next(s, e), y);
  }

  lemma StepSingleIff(s: State, e: Event)
    requires Single(s) && Enabled(s, e)
    ensures Single(Next(s, e)) <==> !Crowds(s, e)
  {
    if Crowds(s, e) {
      CrowdingIsTwo(s, e);
    } else {
      forall x, y | Works(Next(s, e), x) && Works(Next(s, e), y) ensures x == y {
        WorkStaysOrBegins(s, e, x);
        WorkStaysOrBegins(s, e, y);
        if e.action.Work? && s.live[e.action.execution].phase.Begun? {
          BeginWorksIff(s.(clock := e.at), e.action.execution);
        }
      }
    }
  }

  ghost predicate AlwaysSingle(s: State, es: seq<Event>)
    requires Valid(s, es)
    decreases |es|
  {
    Single(s) && (es != [] ==> AlwaysSingle(Next(s, es[0]), es[1..]))
  }

  ghost predicate NeverCrowds(s: State, es: seq<Event>)
    requires Valid(s, es)
    decreases |es|
  {
    es != [] ==> !Crowds(s, es[0]) && NeverCrowds(Next(s, es[0]), es[1..])
  }

  /** At most one container in every state of a run if and only if no opening transaction of the run finds the
      table open while another execution works. */
  lemma {:induction false} SingleContainerIff(s: State, es: seq<Event>)
    requires Single(s) && Valid(s, es)
    ensures AlwaysSingle(s, es) <==> NeverCrowds(s, es)
    decreases |es|
  {
    if es != [] {
      StepSingleIff(s, es[0]);
      if !Crowds(s, es[0]) {
        SingleContainerIff(Next(s, es[0]), es[1..]);
      }
    }
  }

  // ---------------------------------------------------------------- a guard on runs

  /** The conditions on one step under which containers stay exclusive: a row is not handed to a second
      execution while one handles it, and neither the timeout check nor a view that fails to send marks a row
      failed that is under analysis. */
  ghost predicate Tame(s: State, e: Event)
    requires Enabled(s, e)
  {
    && (e.action.Receive? ==> forall x :: x in s.live ==> s.live[x].message.id != e.action.message.id)
    && (e.action.CheckTimeouts? ==> forall x :: Works(s, x) && s.live[x].message.id in s.table ==>
          !s.table[s.live[x].message.id].TimedOut(e.at))
    && (e.action.SendFails? ==> forall x :: Works(s, x) ==> s.live[x].message.id != s.views[e.action.view].id)
  }

  ghost predicate Spares(t: Table, t': Table, id: nat)
    requires id in t
  {
    id in t' && t'[id] == t[id]
  }

  lemma BeginSparesRow(s: State, y: nat, id: nat)
    requires y in s.live && s.live[y].message.id != id && id in s.table && s.table[id].status == Running
    ensures Spares(s.table, Begin(s, y).table, id)
  {
    var (t, own) := (s.table, s.live[y].message.id);
    if own in t && Solved(Celery, t, t[own].purl) {
      DispatchSparesRunning(t[own := Linked(t[own], t[Donor(Celery, t, t[own].purl)], s.clock)], s.clock);
    }
  }

  /** Work of another execution leaves the row under analysis alone. */
  lemma WorkSparesRow(s: State, y: nat, outcome: Outcome, id: nat)
    requires y in s.live && s.live[y].message.id != id && id in s.table && s.table[id].status == Running
    ensures Spares(s.table, WorkStep(s, y, outcome).table, id)
  {
    var p := s.live[y].phase;
    if p.Begun? {
      BeginSparesRow(s, y, id);
    } else if p.Dispatching? || p.RaisedDispatching? {
      DispatchSparesRunning(s.table, s.clock);
    }
  }

  /** An execution that analyses after its own step has just started its row. */
  lemma OwnWork(s: State, y: nat, outcome: Outcome)
    requires y in s.live && Works(WorkStep(s, y, outcome), y)
    ensures s.live[y].phase.Begun?
    ensures
      var (id, s') := (s.live[y].message.id, WorkStep(s, y, outcome));
      id in s'.table && s'.table[id].status == Running && s'.live[y].message.id == id
  {}

  lemma WorkKeepsLive(s: State, y: nat, outcome: Outcome)
    requires y in s.live
    ensures
      var s' := WorkStep(s, y, outcome);
      && (forall x :: x in s'.live ==> x in s.live && s'.live[x].message == s.live[x].message)
      && (forall x :: x in s'.live && x != y ==> s'.live[x] == s.live[x])
  {
    var p := s.live[y].phase;
    if p.Begun? {
      BeginOnlyMoves(s, y);
    } else if p.Dispatching? || p.RaisedDispatching? {
      DispatchOnlyMoves(s, y, outcome);
    }
  }

  lemma TameWork(s: State, y: nat, outcome: Outcome)
    requires Coherent(s) && Exclusive(s) && y in s.live
    ensures Coherent(WorkStep(s, y, outcome)) && Exclusive(WorkStep(s, y, outcome))
  {
    var s' := WorkStep(s, y, outcome);
    WorkKeepsLive(s, y, outcome);
    forall x | Works(s', x)
      ensures s'.live[x].message.id in s'.table && s'.table[s'.live[x].message.id].status == Running
    {
      if x == y {
        OwnWork(s, y, outcome);
      } else {
        assert Works(s, x);
        WorkSparesRow(s, y, outcome, s.live[x].message.id);
      }
    }
  }

  lemma TameTimeouts(s: State, e: Event)
    requires Coherent(s) && Enabled(s, e) && Tame(s, e) && e.action.CheckTimeouts?
    ensures Coherent(Next(s, e))
  {
    DispatchSparesRunning(AllExpired(s.table, e.at), e.at);
    forall x | Works(Next(s, e), x)
      ensures Next(s, e).live[x].message.id in Next(s, e).table
      ensures Next(s, e).table[Next(s, e).live[x].message.id].status == Running
    {
      assert Works(s, x);
    }
  }

  lemma TameStep(s: State, e: Event)
    requires Coherent(s) && Exclusive(s) && Enabled(s, e) && Tame(s, e)
    ensures Coherent(Next(s, e)) && Exclusive(Next(s, e))
  {
    match e.action {
      case Work(y, outcome) => TameWork(s.(clock := e.at), y, outcome);
      case CheckTimeouts => TameTimeouts(s, e);
      case _ =>
        forall x | Works(Next(s, e), x) ensures Works(s, x) {}
    }
  }

  ghost predicate AllTame(s: State, es: seq<Event>)
    requires Valid(s, es)
    decreases |es|
  {
    es == [] || (Tame(s, es[0]) && AllTame(Next(s, es[0]), es[1..]))
  }

  lemma {:induction false} TameRun(s: State, es: seq<Event>)
    requires Coherent(s) && Exclusive(s) && Valid(s, es) && AllTame(s, es)
    ensures Coherent(Run(s, es)) && Exclusive(Run(s, es))
    decreases |es|
  {
    if es != [] {
      TameStep(s, es[0]);
      TameRun(Next(s, es[0]), es[1..]);
    }
  }

  /** So at most one container runs in every state of a run in which no row is handed to two executions at once
      and no row is marked failed while it is analysed. */
  lemma SingleContainer(es: seq<Event>, x: nat, y: nat)
    requires Valid(Initial, es) && AllTame(Initial, es)
    requires Works(Run(Initial, es), x) && Works(Run(Initial, es), y)
    ensures x == y
  {
    TameRun(Initial, es);
    AtMostOneRowRuns(es);
  }

  // ---------------------------------------------------------------- when it fails

  lemma {:induction false} RunOn(s: State, e: Event, es: seq<Event>)
    requires Enabled(s, e) && Valid(Next(s, e), es)
    ensures Valid(s, [e] + es) && Run(s, [e] + es) == Run(Next(s, e), es)
  {
    assert ([e] + es)[1..] == es;
  }

  /** The state right after the check has expired the row that `x` analyses. */
  lemma AfterExpiry(s: State, e: Event, x: nat, next: nat)
    requires Inv(s) && Works(s, x) && Enabled(s, e) && e.action.CheckTimeouts?
    requires s.live[x].message.id in s.table && s.table[s.live[x].message.id].TimedOut(e.at)
    requires ProcessNext(AllExpired(s.table, e.at), e.at).1 == multiset{Delivery(next, 0)}
    ensures
      var s' := Next(s, e);
      && s'.clock == e.at && s'.live == s.live && Delivery(next, 0) in s'.inbox
      && WithStatus(s'.table, Running) == {}
      && next in s'.table && s'.table[next].status == Queued && !Solved(Celery, s'.table, s'.table[next].purl)
  {
    var t := AllExpired(s.table, e.at);
    assert s.live[x].message.id in TimedOutRows(s.table, e.at);
    forall a | a in t ensures t[a].status != Running {}
    assert WithStatus(t, Running) == {};
    DrainEffect(Celery, t, e.at);
    var (t', head) := Drain(Celery, t, e.at);
    assert Delivery(next, 0) in multiset{Delivery(next, 0)};
    assert head == Some(next);
    assert WithStatus(t', Running) == {};
  }

  /** Expiring a row does not stop the execution that analyses it: whenever the check expires such a row and
      the queue has a row to offer, two more steps put a second container beside the first. */
  lemma TimeoutAddsContainer(s: State, e: Event, x: nat, y: nat, next: nat)
    requires Inv(s) && Works(s, x) && Enabled(s, e) && e.action.CheckTimeouts? && y !in s.live
    requires s.live[x].message.id in s.table && s.table[s.live[x].message.id].TimedOut(e.at)
    requires ProcessNext(AllExpired(s.table, e.at), e.at).1 == multiset{Delivery(next, 0)}
    ensures
      var es := [e] + ([Event(e.at + 1, Receive(y, Delivery(next, 0)))]
                       + ([Event(e.at + 2, Work(y, Raises("unknown_error")))] + []));
      Valid(s, es) && Works(Run(s, es), x) && Works(Run(s, es), y) && x != y
  {
    AfterExpiry(s, e, x, next);
    var s1 := Next(s, e);
    var e2 := Event(e.at + 1, Receive(y, Delivery(next, 0)));
    var s2 := Next(s1, e2);
    var e3 := Event(e.at + 2, Work(y, Raises("unknown_error")));
    assert WithStatus(s2.table, Running) - {next} == {};
    RunOn(s2, e3, []);
    RunOn(s1, e2, [e3] + []);
    RunOn(s, e, [e2] + ([e3] + []));
  }
}
