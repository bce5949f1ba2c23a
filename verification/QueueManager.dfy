/** The queue manager's database transactions, as a class over the task table, each method proved
    against the table update that the protocol in QueueProtocol is built from. */
module QueueManager {
  import opened Options
  import opened Ordering
  import opened TaskTable

  // ---------------------------------------------------------------- table updates

  /** Sort key for `order_by('-queue_position')`: a descending PostgreSQL column puts NULL first. */
  function LastKey(t: Table, id: nat): Key
    requires id in t
  {
    match t[id].position
    case None => Key(0, 0, 0, id)
    case Some(p) => Key(0, 1, -(p as int), id)
  }

  function LastKeys(t: Table): set<Key> {
    set id | id in t && t[id].status == Queued :: LastKey(t, id)
  }

  /** One past the position of the last queued row, or 1 when there is none or it has no position. */
  function NextPosition(t: Table): nat {
    KeyLessIsLinear();
    if LastKeys(t) == {} then 1 else
      var k := Least(KeyLess, LastKeys(t));
      assert k in LastKeys(t);
      match t[k.id].position
      case None => 1
      case Some(p) => if p == 0 then 1 else p + 1
  }

  lemma NextPositionIsFree(t: Table, now: int)
    requires QueueOk(t, now)
    ensures NextPosition(t) >= 1
    ensures forall id :: id in t && t[id].status == Queued ==>
      t[id].position.Some? && t[id].position.value < NextPosition(t)
    ensures NextPosition(t) == 1
      || exists id :: id in t && t[id].status == Queued && t[id].position == Some(NextPosition(t) - 1)
  {
    KeyLessIsLinear();
    if LastKeys(t) != {} {
      var k := Least(KeyLess, LastKeys(t));
      assert k in LastKeys(t) && RowOk(t[k.id], now);
    }
    forall id | id in t && t[id].status == Queued
      ensures t[id].position.Some? && t[id].position.value < NextPosition(t)
    {
      assert RowOk(t[id], now);
      assert LastKey(t, id) in LastKeys(t);
      var k := Least(KeyLess, LastKeys(t));
      assert k in LastKeys(t) && RowOk(t[k.id], now);
      assert k == LastKey(t, id) || KeyLess(k, LastKey(t, id));
    }
  }

  function Enqueued(t: Table, id: nat, now: int): Table
    requires id in t
  {
    t[id := t[id].(status := Queued, position := Some(NextPosition(t)), queuedAt := Some(now))]
  }

  /** Adding any row, fresh or not, keeps positions distinct and in arrival order. */
  lemma EnqueuedKeepsOk(t: Table, id: nat, clock: int, now: int)
    requires QueueOk(t, clock) && id in t && clock < now
    ensures QueueOk(Enqueued(t, id, now), now)
  {
    var u := Enqueued(t, id, now);
    NextPositionIsFree(t, clock);
    forall x | x in u ensures RowOk(u[x], now) {
      assert RowOk(t[x], clock);
    }
    forall a, b | a in u && b in u && a != b && u[a].status == Queued && u[b].status == Queued
      ensures Agree(u[a], u[b]) {
      assert RowOk(t[a], clock) && RowOk(t[b], clock);
      if a != id && b != id {
        assert Agree(t[a], t[b]);
      }
    }
  }

  /** The timeout sweep: every timed-out row fails, and the queue is renumbered if there was one. */
  function Swept(t: Table, now: int): Table {
    if TimedOutRows(t, now) == {} then t else Renumbered(AllExpired(t, now))
  }

  /** How the analysis ends: with a report and, unless publishing it failed, a URL; or with an error, before or
      after the heartbeat. */
  datatype Analysis =
    | Report(report: nat, heartbeat: int, published: Option<nat>)
    | Error(category: string, lastHeartbeat: Option<int>)

  function Started(row: Task, now: int): Task {
    row.(status := Running, startedAt := Some(now), heartbeat := Some(now), position := None)
  }

  function Completing(row: Task, report: nat, now: int): Task {
    row.(status := Completed, completedAt := Some(now), report := Some(report))
  }

  function Failing(row: Task, category: string, now: int): Task {
    row.(status := Failed, errorCategory := category, completedAt := Some(now), position := None)
  }

  /** The row at its end: started at one clock reading and finished at another. */
  function Finished(row: Task, analysis: Analysis, started: int, ended: int): Task {
    var row := Started(row, started);
    match analysis
    case Error(category, heartbeat) =>
      Failing(if heartbeat.Some? then row.(heartbeat := heartbeat) else row, category, ended)
    case Report(report, heartbeat, published) =>
      var done := Completing(row.(heartbeat := Some(heartbeat)), report, ended);
      if published.Some? then done.(downloadUrl := published) else done
  }

  /** What an analysis of `row` leaves in it: its own report and, when it was published, its own URL; or the error
      and the results as they were. */
  predicate Ends(row': Task, row: Task, analysis: Analysis, started: int, ended: int) {
    && SameTask(row', row) && row'.timeoutMinutes == row.timeoutMinutes && row'.queuedAt == row.queuedAt
    && row'.position == None && row'.startedAt == Some(started) && row'.completedAt == Some(ended)
    && match analysis
       case Report(report, heartbeat, published) =>
         && row'.status == Completed && row'.report == Some(report) && row'.heartbeat == Some(heartbeat)
         && row'.downloadUrl == (if published.Some? then published else row.downloadUrl)
         && row'.errorCategory == row.errorCategory
       case Error(category, heartbeat) =>
         && row'.status == Failed && row'.errorCategory == category
         && row'.heartbeat == (if heartbeat.Some? then heartbeat else Some(started))
         && row'.report == row.report && row'.downloadUrl == row.downloadUrl
  }

  // ---------------------------------------------------------------- the transactions

  /** The queued rows, `order_by('-priority', 'queued_at')`. */
  method QueuedTasks(t: Table) returns (q: seq<nat>)
    ensures Lists(t, q)
  {
    KeyLessIsLinear();
    var keys := Sort(KeyLess, ArrivalKeys(t));
    SortedKeysList(t, keys);
    q := Ids(keys);
  }

  /** Walks the queue in that order, saving positions 1, 2, ... row by row. */
  method SavePositions(t: Table) returns (saved: Table)
    ensures saved == Renumbered(t)
  {
    var q := QueuedTasks(t);
    saved := t;
    for index := 0 to |q|
      invariant saved == NumberedTo(t, q[..index])
    {
      NumberOneMore(t, q, index);
      saved := saved[q[index] := saved[q[index]].(position := Some(index + 1))];
    }
    AllNumbered(t, q);
  }

  class QueueManager {
    var table: Table

    constructor (table: Table)
      ensures this.table == table
    {
      this.table := table;
    }

    method AddTaskToQueue(id: nat, now: int) returns (position: nat)
      requires id in table
      modifies this
      ensures position == NextPosition(old(table))
      ensures table == Enqueued(old(table), id, now)
    {
      position := NextPosition(table);
      table := table[id := table[id].(status := Queued, position := Some(position), queuedAt := Some(now))];
    }

    method UpdateQueuePositions()
      modifies this
      ensures table == Renumbered(old(table))
    {
      table := SavePositions(table);
    }

    /** Returns nothing while a row is running; otherwise completes solved rows from the head of the queue
        until it meets one without a result. */
    method GetNextTask(now: int) returns (next: Option<nat>)
      modifies this
      ensures WithStatus(old(table), Running) != {} ==> table == old(table) && next == None
      ensures WithStatus(old(table), Running) == {} ==> (table, next) == Drain(Manager, old(table), now)
      decreases |WithStatus(table, Queued)|
    {
      if WithStatus(table, Running) != {} {
        return None;
      }
      KeyLessIsLinear();
      PositionKeysEmpty(table);
      if PositionKeys(table) == {} {
        return None;
      }
      var key := Least(KeyLess, PositionKeys(table));
      LeastPositionIsFirst(table, key);
      var id := key.id;
      next := Some(id);
      assert next == Head(Manager, table) by {
        var h := HeadByPosition(table).value;
        assert FirstByPosition(table, h);
      }
      if Donors(table, table[id].purl) != {} {
        var donor := Donor(Manager, table, table[id].purl);
        ReuseShrinksQueue(table, id, donor, now);
        table := table[id := Linked(table[id], table[donor], now)];
        UpdateQueuePositions();
        assert WithStatus(table, Running) == WithStatus(old(table), Running);
        next := GetNextTask(now);
      }
    }

    method CheckTimeouts(now: int)
      modifies this
      ensures table == Swept(old(table), now)
      ensures table.Keys == old(table).Keys
      ensures forall id :: id in table && old(table)[id].status == Running ==>
        (table[id].status == Failed <==>
          old(table)[id].startedAt.Some? && now - old(table)[id].startedAt.value > 60 * old(table)[id].timeoutMinutes)
    {
      var timedOut := TimedOutRows(table, now);
      var rest := timedOut;
      while rest != {}
        invariant rest <= timedOut
        invariant table == if rest == timedOut then old(table)
                           else Renumbered(WithExpired(old(table), timedOut - rest, now))
        decreases rest
      {
        var id :| id in rest;
        ghost var before, done := table, timedOut - rest;
        assert table[id] == old(table)[id];
        table := table[id := Expired(table[id], now)];
        UpdateQueuePositions();
        rest := rest - {id};
        assert timedOut - rest == done + {id};
        ExpireOneMore(old(table), done, id, now, before);
      }
      assert timedOut - {} == timedOut;
      forall id | id in table && old(table)[id].status == Running ensures SweptRow(old(table), table, now, id) {
        SweepFailsIff(old(table), now, id);
      }
    }

    /** Runs one picked row to its end when nothing else writes meanwhile. */
    method ProcessTask(id: nat, task: Task, analysis: Analysis, started: int, ended: int)
      requires id in table
      modifies this
      ensures table == Renumbered(old(table)[id := Finished(task, analysis, started, ended)])
      ensures id in table && Ends(table[id], task, analysis, started, ended)
    {
      var local := task.(status := Running, startedAt := Some(started), heartbeat := Some(started));
      table := table[id := local];
      local := local.(position := None);
      table := table[id := local];
      match analysis {
        case Error(category, heartbeat) =>
          if heartbeat.Some? {
            local := local.(heartbeat := heartbeat);
            table := table[id := local];
          }
          local := Failing(local, category, ended);
          table := table[id := local];
        case Report(report, heartbeat, published) =>
          local := local.(heartbeat := Some(heartbeat));
          table := table[id := local];
          local := Completing(local, report, ended);
          table := table[id := local];
          if published.Some? {
            local := local.(downloadUrl := published);
            table := table[id := local];
          }
      }
      assert table == old(table)[id := local] && local == Finished(task, analysis, started, ended);
      UpdateQueuePositions();
    }
  }

  /** Row `id` of `t'` is the running row `id` of `t`, failed if and only if it was past its limit. */
  predicate SweptRow(t: Table, t': Table, now: int, id: nat)
    requires id in t
  {
    && id in t'
    && (t'[id].status == Failed <==> t[id].startedAt.Some? && now - t[id].startedAt.value > 60 * t[id].timeoutMinutes)
    && t'[id] == if t'[id].status == Failed
                 then t[id].(status := Failed, errorCategory := "timeout_error", completedAt := Some(now),
                             position := None)
                 else t[id]
  }

  lemma SweepFailsIff(t: Table, now: int, id: nat)
    requires id in t && t[id].status == Running
    ensures SweptRow(t, Swept(t, now), now, id)
  {
    ExpiresIff(t, now, id);
    assert t[id].TimedOut(now) ==> id in TimedOutRows(t, now);
  }

  /** The renumbering, done only for the rows in `done`. */
  function NumberedTo(t: Table, done: seq<nat>): Table {
    map id | id in t :: if id in done then Renumbered(t)[id] else t[id]
  }

  lemma NumberOneMore(t: Table, q: seq<nat>, index: nat)
    requires Lists(t, q) && index < |q|
    ensures q[index] in t
    ensures NumberedTo(t, q[..index])[q[index]] == t[q[index]]
    ensures NumberedTo(t, q[..index + 1]) ==
      NumberedTo(t, q[..index])[q[index] := t[q[index]].(position := Some(index + 1))]
  {
    var id := q[index];
    assert id in q;
    assert q[..index + 1] == q[..index] + [id];
    ListsRank(t, q, index);
    assert id !in q[..index];
  }

  lemma AllNumbered(t: Table, q: seq<nat>)
    requires Lists(t, q)
    ensures NumberedTo(t, q[..|q|]) == Renumbered(t)
  {
    assert q[..|q|] == q;
  }

  lemma ExpireOneMore(t: Table, done: set<nat>, id: nat, now: int, before: Table)
    requires id in t && t[id].TimedOut(now) && id !in done && (forall x :: x in done ==> x in t && t[x].TimedOut(now))
    requires (before == t && done == {}) || before == Renumbered(WithExpired(t, done, now))
    ensures before.Keys == t.Keys && before[id] == t[id]
    ensures Renumbered(before[id := Expired(before[id], now)]) == Renumbered(WithExpired(t, done + {id}, now))
  {
    var u := before[id := Expired(before[id], now)];
    var w := WithExpired(t, done + {id}, now);
    forall x | x in w ensures x in u && u[x].(position := w[x].position) == w[x]
      && (w[x].status != Queued ==> u[x] == w[x]) {}
    SameExceptPositions(u, w);
  }

  lemma SameExceptPositions(u: Table, w: Table)
    requires u.Keys == w.Keys
    requires forall x :: x in w ==> u[x].(position := w[x].position) == w[x] && (w[x].status != Queued ==> u[x] == w[x])
    ensures Renumbered(u) == Renumbered(w)
  {
    forall x | x in w ensures Renumbered(u)[x] == Renumbered(w)[x] {
      assert Ahead(u, x) == Ahead(w, x);
    }
  }
}
