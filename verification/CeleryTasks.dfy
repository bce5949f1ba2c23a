/** The Celery path's transactions that loop or recurse, as methods over the table and the messages sent. */
module CeleryTasks {
  import opened TaskTable
  import QueueManager
  import opened CeleryProtocol

  class CeleryTasks {
    var table: Table
    var sent: multiset<Delivery>

    constructor (table: Table)
      ensures this.table == table && sent == multiset{}
    {
      this.table := table;
      sent := multiset{};
    }

    method ProcessNextQueuedTask(now: int)
      modifies this
      ensures (table, sent) == (ProcessNext(old(table), now).0, old(sent) + ProcessNext(old(table), now).1)
      decreases |WithStatus(table, Queued)|
    {
      assert sent + multiset{} == sent;
      if WithStatus(table, Running) != {} {
        return;
      }
      var q := QueueManager.QueuedTasks(table);
      IsListing(table, q);
      if q == [] {
        return;
      }
      var id := q[0];
      assert id in q && id in WithStatus(table, Queued);
      if table[id].purl != "" && Donors(table, table[id].purl) != {} {
        var donor := Donor(Celery, table, table[id].purl);
        ReuseShrinksQueue(table, id, donor, now);
        table := table[id := Linked(table[id], table[donor], now)];
        table := QueueManager.SavePositions(table);
        assert WithStatus(table, Running) == WithStatus(old(table), Running);
        ProcessNextQueuedTask(now);
        return;
      }
      sent := sent + multiset{Delivery(id, 0)};
    }

    /** Collects the timed-out rows, fails them one by one, and dispatches if there was any. */
    method CheckTimeouts(now: int)
      modifies this
      ensures
        if TimedOutRows(old(table), now) != {} then
          var t := AllExpired(old(table), now);
          (table, sent) == (ProcessNext(t, now).0, old(sent) + ProcessNext(t, now).1)
        else (table, sent) == (old(table), old(sent))
      ensures table.Keys == old(table).Keys
      ensures forall id :: id in table && old(table)[id].status == Running ==>
        (table[id].status == Failed <==>
          old(table)[id].startedAt.Some? && now - old(table)[id].startedAt.value > 60 * old(table)[id].timeoutMinutes)
    {
      var timedOut := TimedOutRows(table, now);
      var rest := timedOut;
      while rest != {}
        invariant rest <= timedOut && sent == old(sent)
        invariant table == WithExpired(old(table), timedOut - rest, now)
        decreases rest
      {
        var id :| id in rest;
        table := table[id := Expired(table[id], now)];
        rest := rest - {id};
      }
      assert timedOut - {} == timedOut;
      if timedOut != {} {
        ProcessNextQueuedTask(now);
      }
      DispatchSparesFinished(AllExpired(old(table), now), now);
      forall id | id in table && old(table)[id].status == Running
        ensures QueueManager.SweptRow(old(table), table, now, id)
      {
        ExpiresIff(old(table), now, id);
        assert old(table)[id].TimedOut(now) ==> id in timedOut;
      }
    }

    method CleanupOldTasks(cutoff: int)
      modifies this`table
      ensures table == CleanedUp(old(table), cutoff)
      ensures forall id :: id in table ==> id in old(table) && table[id] == old(table)[id]
      ensures forall id :: id in old(table) ==>
        (id !in table <==>
          && old(table)[id].status in {Completed, Failed}
          && old(table)[id].completedAt.Some? && old(table)[id].completedAt.value < cutoff)
    {
      table := map id | id in table && !(table[id].status == Completed && table[id].completedAt.Some?
                                         && table[id].completedAt.value < cutoff) :: table[id];
      table := map id | id in table && !(table[id].status == Failed && table[id].completedAt.Some?
                                         && table[id].completedAt.value < cutoff) :: table[id];
    }
  }
}
