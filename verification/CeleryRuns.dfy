/** Runs of the Celery path that show what can happen: two containers, and a row failed without an analysis. */
module CeleryRuns {
  import opened Options
  import opened TaskTable
  import opened CeleryProtocol
  import opened CeleryGuarantees

  // ---------------------------------------------------------------- reachable states

  lemma {:induction false} RunAppend(s: State, es: seq<Event>, e: Event)
    requires Valid(s, es) && Enabled(Run(s, es), e)
    ensures Valid(s, es + [e]) && Run(s, es + [e]) == Next(Run(s, es), e)
    decreases |es|
  {
    if es == [] {
      assert [e][1..] == [];
      assert es + [e] == [e];
    } else {
      RunAppend(Next(s, es[0]), es[1..], e);
      assert (es + [e])[1..] == es[1..] + [e];
    }
  }

  /** Neither a duplicate by the broker, nor the loss of a worker or a view, nor a failure to send. */
  predicate Smooth(a: Action) {
    !a.Redeliver? && !a.WorkerLost? && !a.TimeLimit? && !a.SendFails? && !a.LoseView?
  }

  ghost predicate Reliable(es: seq<Event>) {
    forall i :: 0 <= i < |es| ==> Smooth(es[i].action)
  }

  /** A reliable run from the empty table leads to `s`. */
  ghost predicate Reached(s: State) {
    exists es :: Valid(Initial, es) && Reliable(es) && Run(Initial, es) == s
  }

  lemma ReachedNext(s: State, e: Event)
    requires Reached(s) && Enabled(s, e) && Smooth(e.action)
    ensures Reached(Next(s, e))
  {
    var es :| Valid(Initial, es) && Reliable(es) && Run(Initial, es) == s;
    RunAppend(Initial, es, e);
    assert Reliable(es + [e]);
  }

  function QueuedRow(purl: string, at: int, position: nat): Task {
    FreshRow(purl, 0, 30).(status := Queued, queuedAt := Some(at), position := Some(position))
  }

  lemma AppendedRow(t: Table, id: nat, purl: string, now: int)
    requires id !in t
    ensures Appended(t[id := FreshRow(purl, 0, 30)], id, now)
      == t[id := QueuedRow(purl, now, |WithStatus(t, Queued)| + 1)]
  {
    assert WithStatus(t[id := FreshRow(purl, 0, 30)], Queued) - {id} == WithStatus(t, Queued);
  }

  lemma Submitted(s: State, id: nat, purl: string) returns (s': State)
    requires Reached(s) && id !in s.table && s.views == map[]
    ensures Reached(s')
    ensures s' == State(s.table[id := QueuedRow(purl, s.clock + 2, |WithStatus(s.table, Queued)| + 1)], s.clock + 3,
                        s.inbox + multiset{Delivery(id, 0)}, s.live, map[])
  {
    s' := Saved(s, id, purl);
    var e := Event(s.clock + 3, Send(0));
    ReachedNext(s', e);
    s' := Next(s', e);
  }

  /** A view has saved its row and not sent the message yet. */
  lemma Saved(s: State, id: nat, purl: string) returns (s': State)
    requires Reached(s) && id !in s.table && s.views == map[]
    ensures Reached(s')
    ensures
      var row := QueuedRow(purl, s.clock + 2, |WithStatus(s.table, Queued)| + 1);
      s' == State(s.table[id := row], s.clock + 2, s.inbox, s.live, map[0 := View(id, row)])
  {
    var e1, e2 := Event(s.clock + 1, Create(id, purl, 0, 30)), Event(s.clock + 2, Enqueue(0, id));
    ReachedNext(s, e1);
    s' := Next(s, e1);
    assert s' == s.(clock := s.clock + 1, table := s.table[id := FreshRow(purl, 0, 30)]);
    ReachedNext(s', e2);
    AppendedRow(s.table, id, purl, s.clock + 2);
    s' := Next(s', e2);
  }

  /** A worker takes a waiting message. */
  lemma Received(s: State, x: nat, m: Delivery) returns (s': State)
    requires Reached(s) && x !in s.live && m in s.inbox
    ensures Reached(s')
    ensures s' == s.(clock := s.clock + 1, inbox := s.inbox - multiset{m}, live := s.live[x := Execution(m, Begun)])
  {
    var e := Event(s.clock + 1, Receive(x, m));
    ReachedNext(s, e);
    s' := Next(s, e);
  }

  /** An opening transaction starts its row. */
  lemma Started(s: State, x: nat) returns (s': State)
    requires Reached(s) && x in s.live && s.live[x].phase.Begun? && Opens(s.table, s.live[x].message.id)
    ensures Reached(s')
    ensures
      var (id, now) := (s.live[x].message.id, s.clock + 1);
      var row := s.table[id].(status := Running, startedAt := Some(now), position := None, heartbeat := Some(now));
      s' == Save(s.(clock := now), x, row, Analysing(row))
  {
    assert WithStatus(s.table, Running) - {s.live[x].message.id} == {};
    var e := Event(s.clock + 1, Work(x, Raises("unknown_error")));
    ReachedNext(s, e);
    s' := Next(s, e);
  }

  lemma OpensAlone(t: Table, id: nat)
    requires id in t && t[id].status != Completed
    requires forall other :: other in t && other != id ==> t[other].status != Running && t[other].report == None
    ensures Opens(t, id)
  {
    assert Donors(t, t[id].purl) == {};
  }

  lemma InitialIsReached()
    ensures Reached(Initial)
  {
    assert Run(Initial, []) == Initial && Reliable([]);
  }

  lemma TwoSubmitted() returns (s: State)
    ensures Reached(s)
    ensures s == State(map[0 := QueuedRow("a", 2, 1), 1 := QueuedRow("b", 5, 2)], 6,
                       multiset{Delivery(0, 0), Delivery(1, 0)}, map[], map[])
  {
    InitialIsReached();
    assert WithStatus(Initial.table, Queued) == {};
    s := Submitted(Initial, 0, "a");
    assert WithStatus(s.table, Queued) == {0};
    s := Submitted(s, 1, "b");
  }

  function StartedRow(): Task {
    QueuedRow("a", 2, 1).(status := Running, startedAt := Some(8), position := None, heartbeat := Some(8))
  }

  /** The first task is started while the second waits. */
  lemma FirstTaskStarted() returns (s: State)
    ensures Reached(s)
    ensures s == State(map[0 := StartedRow(), 1 := QueuedRow("b", 5, 2)], 8, multiset{Delivery(1, 0)},
                       map[0 := Execution(Delivery(0, 0), Analysing(StartedRow()))], map[])
  {
    s := TwoSubmitted();
    s := Received(s, 0, Delivery(0, 0));
    assert s.inbox == multiset{Delivery(1, 0)};
    OpensAlone(s.table, 0);
    s := Started(s, 0);
  }

  /** It is served from the result cache and about to dispatch the second. */
  lemma FirstTaskDone() returns (s: State)
    ensures Reached(s) && s.clock == 9 && s.views == map[]
    ensures s.live == map[0 := Execution(Delivery(0, 0), Dispatching)] && s.inbox == multiset{Delivery(1, 0)}
    ensures s.table.Keys == {0, 1} && s.table[1] == QueuedRow("b", 5, 2)
    ensures s.table[0].status == Completed && s.table[0].report == None
  {
    s := FirstTaskStarted();
    var e := Event(9, Work(0, Cached));
    ReachedNext(s, e);
    s := Next(s, e);
  }

  lemma SingleQueued(t: Table, id: nat, now: int)
    requires WithStatus(t, Running) == {} && WithStatus(t, Queued) == {id} && !Solved(Celery, t, t[id].purl)
    ensures ProcessNext(t, now) == (t, multiset{Delivery(id, 0)})
  {
    assert Head(Celery, t).value in WithStatus(t, Queued);
  }

  /** Two executions that received messages for one unsolved queued row both start it. */
  lemma BothBegin(s: State) returns (s': State)
    requires Reached(s) && s.table.Keys == {0, 1} && s.table[1] == QueuedRow("b", 5, 2)
    requires s.table[0].status == Completed && s.table[0].report == None
    requires s.live == map[] && s.inbox == multiset{Delivery(1, 0), Delivery(1, 0)}
    ensures Reached(s') && Works(s', 1) && Works(s', 2)
  {
    s' := Received(s, 1, Delivery(1, 0));
    s' := Received(s', 2, Delivery(1, 0));
    OpensAlone(s'.table, 1);
    s' := Started(s', 1);
    OpensAlone(s'.table, 1);
    s' := Started(s', 2);
  }

  /** The path does not keep to one container on its own: with two workers, a reliable broker and no timeout,
      finishing one task sends a second message for a row whose first message is still waiting, and both
      messages start a container for it. */
  lemma RedispatchAddsContainer()
    ensures exists s, x, y :: Reached(s) && x != y && Works(s, x) && Works(s, y)
  {
    var s := FirstTaskDone();
    assert WithStatus(s.table, Running) == {} && WithStatus(s.table, Queued) == {1};
    assert Donors(s.table, "b") == {};
    SingleQueued(s.table, 1, 10);
    var e := Event(10, Work(0, Raises("unknown_error")));
    ReachedNext(s, e);
    s := Next(s, e);
    assert s.live == map[];
    var s' := BothBegin(s);
    assert Reached(s') && 1 != 2 && Works(s', 1) && Works(s', 2);
  }

  lemma ExpiryDispatches(t: Table)
    requires t == map[0 := StartedRow(), 1 := QueuedRow("b", 5, 2)]
    ensures TimedOutRows(t, 100000) == {0}
    ensures
      var t' := map[0 := Expired(StartedRow(), 100000), 1 := QueuedRow("b", 5, 2)];
      AllExpired(t, 100000) == t' && ProcessNext(t', 100000) == (t', multiset{Delivery(1, 0)})
  {
    assert 0 in TimedOutRows(t, 100000);
    var t' := AllExpired(t, 100000);
    assert WithStatus(t', Running) == {} && WithStatus(t', Queued) == {1} && Donors(t', "b") == {};
    SingleQueued(t', 1, 100000);
  }

  lemma FirstTaskExpired() returns (s: State)
    ensures Reached(s)
    ensures s == State(map[0 := Expired(StartedRow(), 100000), 1 := QueuedRow("b", 5, 2)], 100000,
                       multiset{Delivery(1, 0), Delivery(1, 0)},
                       map[0 := Execution(Delivery(0, 0), Analysing(StartedRow()))], map[])
  {
    s := FirstTaskStarted();
    ExpiryDispatches(s.table);
    var e := Event(100000, CheckTimeouts);
    ReachedNext(s, e);
    s := Next(s, e);
  }

  /** Neither does it keep to one container under timeouts: with a reliable broker the check expires the row that
      is being analysed, and the next row, another one, is started beside it. */
  lemma ExpiryAddsContainer()
    ensures exists s, x, y ::
      Reached(s) && x != y && Works(s, x) && Works(s, y) && s.live[x].message.id != s.live[y].message.id
  {
    var s := FirstTaskExpired();
    s := Received(s, 1, Delivery(1, 0));
    OpensAlone(s.table, 1);
    s := Started(s, 1);
    assert Works(s, 0) && Works(s, 1);
  }

  // ---------------------------------------------------------------- rows failed without an analysis

  /** The opening transaction of a queued row gives it up, so that it is failed without an analysis, if and only if
      another row is running and the retries are used up. */
  lemma GivesUpIff(s: State, x: nat)
    requires x in s.live && s.live[x].phase.Begun?
    requires s.live[x].message.id in s.table && s.table[s.live[x].message.id].status == Queued
    ensures x in Begin(s, x).live && Begin(s, x).live[x].phase == Raised("unknown_error") <==>
      WithStatus(s.table, Running) - {s.live[x].message.id} != {} && s.live[x].message.retries >= 1
  {}

  /** An opening transaction that finds another row running puts its message off. */
  lemma PutOff(s: State, x: nat, other: nat) returns (s': State)
    requires Reached(s) && x in s.live && s.live[x].phase.Begun? && s.live[x].message.retries < MAX_RETRIES
    requires s.live[x].message.id in s.table && other != s.live[x].message.id
    requires other in s.table && s.table[other].status == Running
    ensures Reached(s')
    ensures
      var m := s.live[x].message;
      s' == s.(clock := s.clock + 1, live := s.live - {x}, inbox := s.inbox + multiset{Delivery(m.id, m.retries + 1)})
  {
    assert other in WithStatus(s.table, Running) - {s.live[x].message.id};
    var e := Event(s.clock + 1, Work(x, Raises("unknown_error")));
    ReachedNext(s, e);
    s' := Next(s, e);
  }

  /** The first task is analysed while the second one's message comes back for its last time. */
  lemma LastRetryWaits() returns (s: State)
    ensures Reached(s)
    ensures s == State(map[0 := StartedRow(), 1 := QueuedRow("b", 5, 2)], 11, multiset{},
                       map[0 := Execution(Delivery(0, 0), Analysing(StartedRow())),
                           1 := Execution(Delivery(1, 1), Begun)], map[])
  {
    s := FirstTaskStarted();
    s := Received(s, 1, Delivery(1, 0));
    s := PutOff(s, 1, 0);
    assert s.inbox == multiset{Delivery(1, 1)};
    s := Received(s, 1, Delivery(1, 1));
  }

  /** It happens with two workers and a reliable broker: the row is failed and was never started. */
  lemma RowIsGivenUp()
    ensures exists s, id :: Reached(s) && id in s.table && s.table[id].status == Failed && s.table[id].startedAt == None
  {
    var s := LastRetryWaits();
    assert 0 in WithStatus(s.table, Running) - {1};
    var e := Event(12, Work(1, Raises("unknown_error")));
    ReachedNext(s, e);
    s := Next(s, e);
    e := Event(13, Work(1, Raises("unknown_error")));
    ReachedNext(s, e);
    s := Next(s, e);
    assert s.table[1].status == Failed && s.table[1].startedAt == None;
  }
}
