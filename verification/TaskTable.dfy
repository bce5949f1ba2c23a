/** The table of analysis tasks that both runners share, and the table updates
    that their transactions perform. */
module TaskTable {
  import opened Options
  import opened Ordering

  datatype Status = Pending | Queued | Running | Completed | Failed

  /** A row. Reports and URLs are opaque references; times are clock readings in seconds. */
  datatype Task = Task(
    purl: string,
    priority: nat,
    status: Status,
    position: Option<nat>,
    queuedAt: Option<int>,
    startedAt: Option<int>,
    heartbeat: Option<int>,
    completedAt: Option<int>,
    timeoutMinutes: nat,
    report: Option<nat>,
    downloadUrl: Option<nat>,
    errorCategory: string)
  {
    predicate TimedOut(now: int) {
      status == Running && startedAt.Some? && now > startedAt.value + 60 * timeoutMinutes
    }
  }

  type Table = map<nat, Task>

  function FreshRow(purl: string, priority: nat, timeoutMinutes: nat): Task {
    Task(purl, priority, Pending, None, None, None, None, None, timeoutMinutes, None, None, "")
  }

  function Expired(row: Task, now: int): Task {
    row.(status := Failed, errorCategory := "timeout_error", completedAt := Some(now), position := None)
  }

  function TimedOutRows(t: Table, now: int): set<nat> {
    set id | id in t && t[id].TimedOut(now)
  }

  function WithExpired(t: Table, ids: set<nat>, now: int): Table {
    map id | id in t :: if id in ids then Expired(t[id], now) else t[id]
  }

  /** Every row past its limit failed. */
  function AllExpired(t: Table, now: int): Table {
    WithExpired(t, TimedOutRows(t, now), now)
  }

  /** A running row is failed as timed out exactly when more than its limit, in minutes, has passed since its start;
      no other row changes. */
  lemma ExpiresIff(t: Table, now: int, id: nat)
    requires id in t
    ensures
      var (row, row') := (t[id], AllExpired(t, now)[id]);
      if row.status == Running && row.startedAt.Some? && now - row.startedAt.value > 60 * row.timeoutMinutes
      then row' == row.(status := Failed, errorCategory := "timeout_error", completedAt := Some(now), position := None)
      else row' == row
  {
    assert id in TimedOutRows(t, now) <==> t[id].TimedOut(now);
  }

  /** The limit is not reached but to be passed: thirty minutes from second 0 are over at second 1801. */
  lemma LimitIsExact(row: Task)
    requires row.status == Running && row.startedAt == Some(0) && row.timeoutMinutes == 30
    ensures AllExpired(map[0 := row], 1800)[0].status == Running
    ensures AllExpired(map[0 := row], 1801)[0].status == Failed
  {
    ExpiresIff(map[0 := row], 1800, 0);
    ExpiresIff(map[0 := row], 1801, 0);
  }

  /** Which runner's query is meant: they order the queue and choose the result to reuse differently. */
  datatype Runner = Manager | Celery

  // ---------------------------------------------------------------- queue order

  /** A sort key. `absent` puts NULL after every value, as PostgreSQL does for an ascending column;
      the row id makes the order total where the database would be free to choose. */
  datatype Key = Key(rank: int, absent: int, stamp: int, id: nat)

  predicate KeyLess(a: Key, b: Key) {
    || a.rank < b.rank
    || (a.rank == b.rank && a.absent < b.absent)
    || (a.rank == b.rank && a.absent == b.absent && a.stamp < b.stamp)
    || (a.rank == b.rank && a.absent == b.absent && a.stamp == b.stamp && a.id < b.id)
  }

  lemma KeyLessIsLinear()
    ensures Linear(KeyLess)
  {
    assert TotalOrder(KeyLess);
    TotalIsLinear(KeyLess);
  }

  function ColumnKey(rank: int, column: Option<int>, id: nat): Key {
    match column
    case None => Key(rank, 1, 0, id)
    case Some(v) => Key(rank, 0, v, id)
  }

  function ArrivalKey(t: Table, id: nat): Key
    requires id in t
  {
    ColumnKey(-(t[id].priority as int), t[id].queuedAt, id)
  }

  function PositionKey(t: Table, id: nat): Key
    requires id in t
  {
    ColumnKey(-(t[id].priority as int), t[id].position, id)
  }

  function WithStatus(t: Table, s: Status): set<nat> {
    set id | id in t && t[id].status == s
  }

  function ArrivalKeys(t: Table): set<Key> {
    set id | id in t && t[id].status == Queued :: ArrivalKey(t, id)
  }

  function PositionKeys(t: Table): set<Key> {
    set id | id in t && t[id].status == Queued :: PositionKey(t, id)
  }

  /** `q` is the queue in (-priority, queued_at) order. */
  ghost predicate Lists(t: Table, q: seq<nat>) {
    && (forall id :: id in q <==> id in t && t[id].status == Queued)
    && (forall i, j :: 0 <= i < j < |q| && q[i] in t && q[j] in t ==>
          KeyLess(ArrivalKey(t, q[i]), ArrivalKey(t, q[j])))
  }

  /** The listing is what sorting the arrival keys yields. */
  function Ids(keys: seq<Key>): seq<nat> {
    seq(|keys|, i requires 0 <= i < |keys| => keys[i].id)
  }

  lemma SortedKeysList(t: Table, keys: seq<Key>)
    requires Ascending(KeyLess, keys) && forall k :: k in keys <==> k in ArrivalKeys(t)
    ensures Lists(t, Ids(keys))
  {
    var q := Ids(keys);
    forall i | 0 <= i < |q| ensures q[i] in t && t[q[i]].status == Queued && keys[i] == ArrivalKey(t, q[i]) {
      assert keys[i] in ArrivalKeys(t);
    }
    forall id | id in t && t[id].status == Queued ensures id in q {
      assert ArrivalKey(t, id) in keys;
      var i :| 0 <= i < |keys| && keys[i] == ArrivalKey(t, id);
      assert q[i] == id;
    }
  }

  lemma ListsExists(t: Table)
    ensures exists q :: Lists(t, q)
  {
    KeyLessIsLinear();
    var keys := Sort(KeyLess, ArrivalKeys(t));
    SortedKeysList(t, keys);
  }

  ghost function Listing(t: Table): (q: seq<nat>)
    ensures Lists(t, q)
  {
    ListsExists(t);
    var q :| Lists(t, q);
    q
  }

  /** The queued rows that come before row `id`. */
  function Ahead(t: Table, id: nat): set<nat>
    requires id in t
  {
    set x | x in t && t[x].status == Queued && KeyLess(ArrivalKey(t, x), ArrivalKey(t, id))
  }

  /** Ahead are the queued rows of a higher priority, and of the same one those queued earlier; a row without a time
      comes after those with one, and the lower id first among equals. */
  lemma AheadIff(t: Table, x: nat, id: nat)
    requires x in t && id in t
    ensures x in Ahead(t, id) <==>
      t[x].status == Queued
      && (t[x].priority > t[id].priority
          || (t[x].priority == t[id].priority
              && match (t[x].queuedAt, t[id].queuedAt)
                 case (Some(a), Some(b)) => a < b || (a == b && x < id)
                 case (Some(_), None) => true
                 case (None, Some(_)) => false
                 case (None, None) => x < id))
  {}

  /** The i-th row of the queue has exactly i rows ahead of it. */
  lemma ListsRank(t: Table, q: seq<nat>, i: nat)
    requires Lists(t, q) && i < |q|
    ensures q[i] in t && |Ahead(t, q[i])| == i
  {
    assert q[i] in q;
    forall a, b | 0 <= a < b < |q| ensures q[a] != q[b] && q[a] in t && q[b] in t {
      assert q[a] in q && q[b] in q;
    }
    DistinctSize(q[..i]);
    assert Ahead(t, q[i]) == Elements(q[..i]);
  }

  lemma ListsSameIndex(t: Table, q: seq<nat>, q': seq<nat>, i: nat)
    requires Lists(t, q) && Lists(t, q') && i < |q|
    ensures i < |q'| && q'[i] == q[i]
  {
    assert q[i] in q && q[i] in q';
    var j :| 0 <= j < |q'| && q'[j] == q[i];
    ListsRank(t, q, i);
    ListsRank(t, q', j);
  }

  lemma ListsUnique(t: Table, q: seq<nat>, q': seq<nat>)
    requires Lists(t, q) && Lists(t, q')
    ensures q == q'
  {
    forall i | 0 <= i < |q| ensures i < |q'| && q'[i] == q[i] {
      ListsSameIndex(t, q, q', i);
    }
    if |q| > 0 { ListsSameIndex(t, q, q', |q| - 1); }
    if |q'| > 0 { ListsSameIndex(t, q', q, |q'| - 1); }
    assert |q| == |q'|;
  }

  // ---------------------------------------------------------------- renumbering

  /** What a renumbering leaves: a queued row's position is one more than the number of rows ahead. */
  function Renumbered(t: Table): Table {
    map id | id in t ::
      if t[id].status == Queued then t[id].(position := Some(1 + |Ahead(t, id)|)) else t[id]
  }

  /** Listed in order, the renumbered positions are 1, 2, ..., n. */
  lemma RenumberedCounts(t: Table)
    ensures forall i :: 0 <= i < |Listing(t)| ==>
      Listing(t)[i] in t && Renumbered(t)[Listing(t)[i]].position == Some(i + 1)
  {
    var q := Listing(t);
    forall i | 0 <= i < |q| ensures q[i] in t && Renumbered(t)[q[i]].position == Some(i + 1) {
      ListsRank(t, q, i);
      assert q[i] in q;
    }
  }

  lemma IsListing(t: Table, q: seq<nat>)
    requires Lists(t, q)
    ensures Listing(t) == q
  {
    ListsUnique(t, q, Listing(t));
  }

  lemma RenumberedListing(t: Table)
    ensures Listing(Renumbered(t)) == Listing(t)
  {
    assert Lists(Renumbered(t), Listing(t));
    IsListing(Renumbered(t), Listing(t));
  }

  // ---------------------------------------------------------------- the queue invariant

  ghost predicate RowOk(row: Task, now: int) {
    && (row.status == Queued <==> row.position.Some?)
    && (row.status == Queued ==> row.position.value >= 1 && row.queuedAt.Some? && row.queuedAt.value <= now)
  }

  /** Two queued rows: distinct positions and times, and the same order by either among equal priorities. */
  ghost predicate Agree(a: Task, b: Task)
    requires a.position.Some? && b.position.Some? && a.queuedAt.Some? && b.queuedAt.Some?
  {
    && a.position.value != b.position.value
    && a.queuedAt.value != b.queuedAt.value
    && (a.priority == b.priority ==>
          (a.position.value < b.position.value <==> a.queuedAt.value < b.queuedAt.value))
  }

  ghost predicate QueueOk(t: Table, now: int) {
    && (forall id :: id in t ==> RowOk(t[id], now))
    && (forall a, b :: a in t && b in t && a != b && t[a].status == Queued && t[b].status == Queued ==>
          Agree(t[a], t[b]))
  }

  lemma RenumberedKeepsOk(t: Table, now: int)
    requires QueueOk(t, now)
    ensures QueueOk(Renumbered(t), now)
  {
    var r := Renumbered(t);
    forall a, b | a in t && b in t && a != b && t[a].status == Queued && t[b].status == Queued
      ensures r[a].position != r[b].position
      ensures KeyLess(ArrivalKey(t, a), ArrivalKey(t, b)) ==> r[a].position.value < r[b].position.value
    {
      if KeyLess(ArrivalKey(t, a), ArrivalKey(t, b)) {
        AheadGrows(t, a, b);
      } else {
        AheadGrows(t, b, a);
      }
    }
    forall a, b | a in r && b in r && a != b && r[a].status == Queued && r[b].status == Queued
      ensures Agree(r[a], r[b])
    {
      assert Agree(t[a], t[b]);
      assert KeyLess(ArrivalKey(t, a), ArrivalKey(t, b)) ==> r[a].position.value < r[b].position.value;
      assert KeyLess(ArrivalKey(t, b), ArrivalKey(t, a)) ==> r[b].position.value < r[a].position.value;
    }
  }

  lemma AheadGrows(t: Table, a: nat, b: nat)
    requires a in t && b in t && t[a].status == Queued
    requires KeyLess(ArrivalKey(t, a), ArrivalKey(t, b))
    ensures |Ahead(t, a)| < |Ahead(t, b)|
  {
    assert Ahead(t, a) + {a} <= Ahead(t, b);
    assert a !in Ahead(t, a);
    SubsetSize(Ahead(t, a) + {a}, Ahead(t, b));
  }

  lemma {:induction false} SubsetSize<T>(a: set<T>, b: set<T>)
    requires a <= b
    ensures |a| <= |b|
  {
    assert b == a + (b - a);
    assert |a + (b - a)| == |a| + |b - a|;
  }

  // ---------------------------------------------------------------- choosing the next row

  /** The head of the queue in (-priority, queued_at) order. */
  ghost function HeadByArrival(t: Table): Option<nat> {
    if Listing(t) == [] then None else Some(Listing(t)[0])
  }

  ghost predicate FirstByPosition(t: Table, m: nat) {
    && m in WithStatus(t, Queued)
    && forall x :: x in WithStatus(t, Queued) && x != m ==> KeyLess(PositionKey(t, m), PositionKey(t, x))
  }

  lemma LeastPositionIsFirst(t: Table, k: Key)
    requires IsLeast(KeyLess, PositionKeys(t), k)
    ensures FirstByPosition(t, k.id)
  {
    forall x | x in WithStatus(t, Queued) ensures PositionKey(t, x) in PositionKeys(t) {}
  }

  lemma PositionKeysEmpty(t: Table)
    ensures PositionKeys(t) == {} <==> WithStatus(t, Queued) == {}
  {
    if WithStatus(t, Queued) != {} {
      var x :| x in WithStatus(t, Queued);
      assert PositionKey(t, x) in PositionKeys(t);
    } else {
      assert forall id :: id in t && t[id].status == Queued ==> id in WithStatus(t, Queued);
      assert PositionKeys(t) == {};
    }
  }

  /** The head of the queue in (-priority, queue_position) order. */
  ghost function HeadByPosition(t: Table): (h: Option<nat>)
    ensures h.None? <==> WithStatus(t, Queued) == {}
    ensures h.Some? ==> FirstByPosition(t, h.value)
  {
    KeyLessIsLinear();
    PositionKeysEmpty(t);
    if PositionKeys(t) == {} then None else
      var k := Least(KeyLess, PositionKeys(t));
      LeastPositionIsFirst(t, k);
      Some(k.id)
  }

  /** The two orders pick the same row whenever positions agree with arrivals. */
  lemma HeadsAgree(t: Table, now: int)
    requires QueueOk(t, now)
    ensures HeadByPosition(t) == HeadByArrival(t)
  {
    var q := Listing(t);
    assert forall x :: x in q <==> x in WithStatus(t, Queued);
    if q != [] {
      assert q[0] in q;
      var m := HeadByPosition(t).value;
      assert m in q;
      if m != q[0] {
        assert Agree(t[m], t[q[0]]);
      }
    }
  }

  /** The completed rows for a package URL that carry a report. */
  function Donors(t: Table, purl: string): set<nat> {
    set id | id in t && t[id].status == Completed && t[id].purl == purl && t[id].report.Some?
  }

  /** The Celery path does not look a blank package URL up. */
  predicate Solved(r: Runner, t: Table, purl: string) {
    Donors(t, purl) != {} && (r == Celery ==> purl != "")
  }

  /** Sort key of the donor query: by id for the manager, else latest completion first, where a
      descending PostgreSQL column puts NULL first. */
  function DonorKey(r: Runner, t: Table, id: nat): Key
    requires id in t
  {
    if r == Manager then Key(0, 0, 0, id)
    else match t[id].completedAt
         case None => Key(0, 0, 0, id)
         case Some(at) => Key(1, 0, -at, id)
  }

  function DonorKeys(r: Runner, t: Table, purl: string): set<Key> {
    set id | id in Donors(t, purl) :: DonorKey(r, t, id)
  }

  function Donor(r: Runner, t: Table, purl: string): (d: nat)
    requires Donors(t, purl) != {}
    ensures d in Donors(t, purl)
  {
    KeyLessIsLinear();
    assert exists id :: id in Donors(t, purl) && DonorKey(r, t, id) in DonorKeys(r, t, purl);
    var k := Least(KeyLess, DonorKeys(r, t, purl));
    assert k in DonorKeys(r, t, purl);
    k.id
  }

  /** A completed row for the package that carries a report. */
  predicate HasResult(row: Task, purl: string) {
    row.status == Completed && row.purl == purl && row.report.Some?
  }

  /** Which of two completed rows the donor query of the runner lists first. */
  predicate ListedBefore(r: Runner, t: Table, d: nat, e: nat)
    requires d in t && e in t
  {
    match (r, t[d].completedAt, t[e].completedAt)
    case (Manager, _, _) => d < e
    case (Celery, None, None) => d < e
    case (Celery, None, Some(_)) => true
    case (Celery, Some(_), None) => false
    case (Celery, Some(a), Some(b)) => a > b || (a == b && d < e)
  }

  /** The row whose result is reused for the package: the one with the lowest id for the manager; the one completed
      last for Celery, rows without a completion time coming before all others. */
  ghost predicate Preferred(r: Runner, t: Table, purl: string, d: nat) {
    d in t && HasResult(t[d], purl)
    && forall e :: e in t && e != d && HasResult(t[e], purl) ==> ListedBefore(r, t, d, e)
  }

  lemma DonorIsPreferred(r: Runner, t: Table, purl: string)
    requires Donors(t, purl) != {}
    ensures Preferred(r, t, purl, Donor(r, t, purl))
  {
    KeyLessIsLinear();
    var d :| d in Donors(t, purl);
    assert DonorKey(r, t, d) in DonorKeys(r, t, purl);
    var k := Least(KeyLess, DonorKeys(r, t, purl));
    forall e | e in t && e != k.id && HasResult(t[e], purl) ensures ListedBefore(r, t, k.id, e) {
      assert e in Donors(t, purl) && DonorKey(r, t, e) in DonorKeys(r, t, purl);
    }
  }

  lemma PreferredIsDonor(r: Runner, t: Table, purl: string, d: nat)
    requires Preferred(r, t, purl, d)
    ensures Donors(t, purl) != {} && Donor(r, t, purl) == d
  {
    assert d in Donors(t, purl);
    DonorIsPreferred(r, t, purl);
    assert forall e :: e in t && e != d && HasResult(t[e], purl) ==> !ListedBefore(r, t, e, d);
  }

  lemma SolvedIff(r: Runner, t: Table, purl: string)
    ensures Solved(r, t, purl) <==>
      (exists d :: d in t && t[d].status == Completed && t[d].purl == purl && t[d].report.Some?)
      && (r == Celery ==> purl != "")
  {
    if d :| d in t && t[d].status == Completed && t[d].purl == purl && t[d].report.Some? {
      assert d in Donors(t, purl);
    }
  }

  // ---------------------------------------------------------------- skipping solved rows

  ghost function Head(r: Runner, t: Table): (h: Option<nat>)
    ensures h.Some? ==> h.value in WithStatus(t, Queued)
    ensures h.None? <==> WithStatus(t, Queued) == {}
  {
    assert forall x :: x in Listing(t) <==> x in WithStatus(t, Queued);
    assert Listing(t) != [] ==> Listing(t)[0] in Listing(t);
    if r == Manager then HeadByPosition(t) else HeadByArrival(t)
  }

  /** A queued row marked completed with another row's result. */
  function Linked(row: Task, donor: Task, now: int): Task {
    row.(status := Completed, report := donor.report, downloadUrl := donor.downloadUrl,
         completedAt := Some(now), position := None)
  }

  function Reuse(t: Table, id: nat, donor: nat, now: int): Table
    requires id in t && donor in t
  {
    Renumbered(t[id := Linked(t[id], t[donor], now)])
  }

  lemma ReuseShrinksQueue(t: Table, id: nat, donor: nat, now: int)
    requires id in WithStatus(t, Queued) && donor in t
    ensures WithStatus(Reuse(t, id, donor, now), Queued) == WithStatus(t, Queued) - {id}
  {}

  /** Completes rows from the head of the queue while their package already has a result; returns the
      first row that has none. */
  ghost function Drain(r: Runner, t: Table, now: int): (Table, Option<nat>)
    decreases |WithStatus(t, Queued)|
  {
    var head := Head(r, t);
    if head.None? || !Solved(r, t, t[head.value].purl) then (t, head) else
      var donor := Donor(r, t, t[head.value].purl);
      ReuseShrinksQueue(t, head.value, donor, now);
      Drain(r, Reuse(t, head.value, donor, now), now)
  }

  /** `row'` is `row` completed at `now`, off the queue, with report and URL of `donor`, and otherwise unchanged. */
  predicate Carries(row': Task, row: Task, donor: Task, now: int) {
    && row'.status == Completed && row'.completedAt == Some(now) && row'.position == None
    && row'.report == donor.report && row'.downloadUrl == donor.downloadUrl
    && row'.purl == row.purl && row'.priority == row.priority && row'.timeoutMinutes == row.timeoutMinutes
    && row'.queuedAt == row.queuedAt && row'.startedAt == row.startedAt && row'.heartbeat == row.heartbeat
    && row'.errorCategory == row.errorCategory
  }

  /** `row'` is `row` completed with the result that the runner chooses from `t` for its package. */
  predicate CompletedFrom(r: Runner, t: Table, row: Task, row': Task, now: int) {
    Donors(t, row.purl) != {} && Carries(row', row, t[Donor(r, t, row.purl)], now)
  }

  /** The rows from `k` on keep everything but their positions, which count from 1 when anything was completed. */
  ghost predicate Moved(t: Table, q: seq<nat>, k: nat, t': Table)
    requires k <= |q| && (forall id :: id in q ==> id in t) && t'.Keys == t.Keys
  {
    forall i :: k <= i < |q| ==>
      t'[q[i]] == t[q[i]].(position := if k == 0 then t[q[i]].position else Some(i - k + 1))
  }

  /** The effect of a drain on the whole table: the solved prefix of length `k` is completed, the rest of
      the queue is renumbered from 1 when anything was completed, and no other row changes. */
  ghost predicate Drained(r: Runner, t: Table, q: seq<nat>, k: nat, t': Table, now: int)
    requires k <= |q| && forall id :: id in q ==> id in t
  {
    && t'.Keys == t.Keys
    && (forall i :: 0 <= i < k ==> CompletedFrom(r, t, t[q[i]], t'[q[i]], now))
    && Moved(t, q, k, t')
    && (forall id :: id in t && id !in q ==> t'[id] == t[id])
  }

  /** Taking the head out of the queue leaves the rest in order. */
  lemma DropHeadLists(t: Table, u: Table, q: seq<nat>)
    requires Lists(t, q) && q != []
    requires forall id :: id in u && u[id].status == Queued <==> id in t && t[id].status == Queued && id != q[0]
    requires forall id :: id in u && u[id].status == Queued ==> ArrivalKey(u, id) == ArrivalKey(t, id)
    ensures Lists(u, q[1..])
  {
    var rest := q[1..];
    forall i | 0 < i < |q| ensures q[i] in t && q[i] != q[0] {
      assert q[i] in q && q[0] in q;
    }
    forall id ensures id in rest <==> id in u && u[id].status == Queued {
      if id in q && id != q[0] {
        var i :| 0 <= i < |q| && q[i] == id;
        assert rest[i - 1] == id;
      }
    }
  }

  lemma ReuseListing(t: Table, id: nat, donor: nat, now: int)
    requires HeadByArrival(t) == Some(id) && donor in t
    ensures id in t && Listing(Reuse(t, id, donor, now)) == Listing(t)[1..]
    ensures forall i :: 1 <= i < |Listing(t)| ==>
      Reuse(t, id, donor, now)[Listing(t)[i]] == t[Listing(t)[i]].(position := Some(i))
  {
    var q := Listing(t);
    assert q[0] in q;
    var u := t[id := Linked(t[id], t[donor], now)];
    DropHeadLists(t, u, q);
    IsListing(u, q[1..]);
    RenumberedListing(u);
    RenumberedCounts(u);
    forall i | 1 <= i < |q|
      ensures Reuse(t, id, donor, now)[q[i]] == t[q[i]].(position := Some(i))
    {
      assert q[1..][i - 1] == q[i] && q[i] in q;
    }
  }

  lemma ReuseDonors(t: Table, id: nat, donor: nat, now: int, purl: string)
    requires id in WithStatus(t, Queued) && donor in Donors(t, t[id].purl)
    ensures Donors(Reuse(t, id, donor, now), purl) == Donors(t, purl) + (if purl == t[id].purl then {id} else {})
    ensures Donors(Reuse(t, id, donor, now), purl) == {} <==> Donors(t, purl) == {}
    ensures forall d :: d in Donors(t, purl) ==> Reuse(t, id, donor, now)[d] == t[d]
  {}

  lemma ReuseSolved(r: Runner, t: Table, id: nat, donor: nat, now: int, purl: string)
    requires id in WithStatus(t, Queued) && donor in Donors(t, t[id].purl)
    ensures Solved(r, Reuse(t, id, donor, now), purl) <==> Solved(r, t, purl)
  {
    ReuseDonors(t, id, donor, now, purl);
  }

  /** A result copied from a row that was itself completed in this drain is one that `t` already had. */
  lemma CompletedFromEarlier(r: Runner, t: Table, id: nat, now: int, row: Task, row': Task)
    requires id in WithStatus(t, Queued) && Donors(t, t[id].purl) != {}
    requires CompletedFrom(r, Reuse(t, id, Donor(r, t, t[id].purl), now), row, row', now)
    ensures CompletedFrom(r, t, row, row', now)
  {
    var donor := Donor(r, t, t[id].purl);
    var u := Reuse(t, id, donor, now);
    var e := Donor(r, u, row.purl);
    DonorIsPreferred(r, u, row.purl);
    if e == id {
      assert Carries(u[id], t[id], t[donor], now);
    } else {
      StaysPreferred(r, t, id, donor, now, row.purl, e);
      PreferredIsDonor(r, t, row.purl, e);
    }
  }

  lemma StaysPreferred(r: Runner, t: Table, id: nat, donor: nat, now: int, purl: string, e: nat)
    requires id in WithStatus(t, Queued) && donor in t && e != id
    requires Preferred(r, Reuse(t, id, donor, now), purl, e)
    ensures Preferred(r, t, purl, e) && t[e] == Reuse(t, id, donor, now)[e]
  {
    var u := Reuse(t, id, donor, now);
    assert u[e].status == Completed ==> u[e] == t[e];
    forall x | x in t && x != e && HasResult(t[x], purl) ensures ListedBefore(r, t, e, x) {
      assert x != id && u[x] == t[x];
    }
  }

  /** `u` is `t` after its head row `q[0]` was completed and the rest renumbered. */
  ghost predicate HeadReused(t: Table, q: seq<nat>, donor: nat, u: Table, now: int) {
    && q != [] && q[0] !in q[1..] && (forall x :: x in q ==> x in t) && donor in t
    && u.Keys == t.Keys
    && u[q[0]] == Linked(t[q[0]], t[donor], now)
    && (forall i :: 1 <= i < |q| ==> u[q[i]] == t[q[i]].(position := Some(i)))
    && (forall x :: x in t && x !in q ==> u[x] == t[x])
  }

  lemma ReuseIsHeadReused(t: Table, donor: nat, now: int)
    requires Listing(t) != [] && donor in t
    ensures Listing(t)[0] in Listing(t)
    ensures HeadReused(t, Listing(t), donor, Reuse(t, Listing(t)[0], donor, now), now)
  {
    var q := Listing(t);
    ReuseListing(t, q[0], donor, now);
    forall i | 0 <= i < |q| ensures q[i] in q && q[i] in t {}
    forall i | 0 < i < |q| ensures q[i] != q[0] {}
  }

  lemma ReusedRow(r: Runner, u: Table, q: seq<nat>, now: int, k: nat, t': Table, i: nat)
    requires 1 <= i <= k < |q| && (forall x :: x in q[1..] ==> x in u) && Drained(r, u, q[1..], k, t', now)
    ensures q[i] in u && q[i] in t' && CompletedFrom(r, u, u[q[i]], t'[q[i]], now)
  {
    assert q[1..][i - 1] == q[i] && q[i] in q[1..];
  }

  lemma MovedRow(t: Table, q: seq<nat>, donor: nat, u: Table, now: int, k: nat, t': Table, i: nat)
    requires HeadReused(t, q, donor, u, now)
    requires k < i < |q| && (forall x :: x in q[1..] ==> x in u) && t'.Keys == u.Keys && Moved(u, q[1..], k, t')
    ensures t'[q[i]] == t[q[i]].(position := Some(i - k))
  {
    assert q[1..][i - 1] == q[i];
  }

  lemma {:induction false} DrainedStep(r: Runner, t: Table, q: seq<nat>, donor: nat, now: int, k: nat, t': Table)
    requires q == Listing(t) && q != [] && q[0] in WithStatus(t, Queued)
    requires Donors(t, t[q[0]].purl) != {} && donor == Donor(r, t, t[q[0]].purl)
    requires k < |q| && forall x :: x in q[1..] ==> x in Reuse(t, q[0], donor, now)
    requires Drained(r, Reuse(t, q[0], donor, now), q[1..], k, t', now)
    ensures Drained(r, t, q, k + 1, t', now)
  {
    var u := Reuse(t, q[0], donor, now);
    ReuseIsHeadReused(t, donor, now);
    forall i | 0 <= i < k + 1 ensures CompletedFrom(r, t, t[q[i]], t'[q[i]], now) {
      if i == 0 {
        assert Carries(u[q[0]], t[q[0]], t[donor], now) && t'[q[0]] == u[q[0]];
      } else {
        ReusedRow(r, u, q, now, k, t', i);
        CompletedFromEarlier(r, t, q[0], now, u[q[i]], t'[q[i]]);
      }
    }
    forall i | k + 1 <= i < |q| ensures t'[q[i]] == t[q[i]].(position := Some(i - k)) {
      MovedRow(t, q, donor, u, now, k, t', i);
    }
    forall x | x in t && x !in q ensures t'[x] == t[x] {
      assert x !in q[1..];
    }
  }

  /** The first `k` rows of the queue have a result, the next one, if any, has none; the first `k` were
      completed and the next one was returned. */
  ghost predicate DrainsTo(r: Runner, t: Table, q: seq<nat>, k: nat, now: int, result: (Table, Option<nat>))
    requires forall id :: id in q ==> id in t
  {
    && k <= |q|
    && (forall i :: 0 <= i < k ==> Solved(r, t, t[q[i]].purl))
    && (k < |q| ==> !Solved(r, t, t[q[k]].purl))
    && Drained(r, t, q, k, result.0, now)
    && result.1 == if k < |q| then Some(q[k]) else None
  }

  lemma ReusePreservesSolved(r: Runner, t: Table, q: seq<nat>, donor: nat, now: int)
    requires q == Listing(t) && q != [] && q[0] in WithStatus(t, Queued) && donor in Donors(t, t[q[0]].purl)
    ensures
      var u := Reuse(t, q[0], donor, now);
      forall x :: x in q ==>
        x in t && x in u && u[x].purl == t[x].purl && (Solved(r, u, u[x].purl) <==> Solved(r, t, t[x].purl))
  {
    var u := Reuse(t, q[0], donor, now);
    forall x | x in q
      ensures x in t && x in u && u[x].purl == t[x].purl && (Solved(r, u, u[x].purl) <==> Solved(r, t, t[x].purl))
    {
      ReuseSolved(r, t, q[0], donor, now, t[x].purl);
    }
  }

  lemma DrainsToStep(r: Runner, t: Table, q: seq<nat>, donor: nat, k: nat, now: int, result: (Table, Option<nat>))
    requires q == Listing(t) && q != [] && q[0] in WithStatus(t, Queued) && Solved(r, t, t[q[0]].purl)
    requires donor == Donor(r, t, t[q[0]].purl)
    requires DrainsTo(r, Reuse(t, q[0], donor, now), Listing(Reuse(t, q[0], donor, now)), k, now, result)
    ensures DrainsTo(r, t, q, k + 1, now, result)
  {
    var u := Reuse(t, q[0], donor, now);
    ReuseListing(t, q[0], donor, now);
    assert donor in Donors(t, t[q[0]].purl);
    DrainedStep(r, t, q, donor, now, k, result.0);
    ReusePreservesSolved(r, t, q, donor, now);
    forall i | 1 <= i < |q| ensures q[i] in q && q[i] == q[1..][i - 1] {}
    forall i | 1 <= i < k + 1 ensures Solved(r, t, t[q[i]].purl) {
      assert Solved(r, u, u[q[1..][i - 1]].purl);
    }
  }

  /** A drain completes exactly the solved prefix of the queue and stops at the first unsolved row. */
  lemma {:induction false} DrainPrefix(r: Runner, t: Table, now: int)
    requires r == Manager ==> QueueOk(t, now)
    ensures exists k: nat :: DrainsTo(r, t, Listing(t), k, now, Drain(r, t, now))
    decreases |WithStatus(t, Queued)|
  {
    if r == Manager { HeadsAgree(t, now); }
    var head := HeadByArrival(t);
    assert head == Head(r, t);
    if head.None? || !Solved(r, t, t[head.value].purl) {
      assert Drain(r, t, now) == (t, head);
      assert DrainsTo(r, t, Listing(t), 0, now, Drain(r, t, now));
    } else {
      var d := Donor(r, t, t[head.value].purl);
      var u := Reuse(t, head.value, d, now);
      ReuseShrinksQueue(t, head.value, d, now);
      if r == Manager { ReuseKeepsOk(t, head.value, d, now); }
      DrainPrefix(r, u, now);
      var k: nat :| DrainsTo(r, u, Listing(u), k, now, Drain(r, u, now));
      DrainsToStep(r, t, Listing(t), d, k, now, Drain(r, u, now));
    }
  }

  lemma ReuseKeepsOk(t: Table, id: nat, donor: nat, now: int)
    requires QueueOk(t, now) && id in t && donor in t
    ensures QueueOk(Reuse(t, id, donor, now), now)
  {
    var u := t[id := Linked(t[id], t[donor], now)];
    forall a, b | a in u && b in u && a != b && u[a].status == Queued && u[b].status == Queued
      ensures Agree(u[a], u[b]) {
      assert Agree(t[a], t[b]);
    }
    RenumberedKeepsOk(u, now);
  }

  lemma {:induction false} DrainKeepsOk(t: Table, now: int)
    requires QueueOk(t, now)
    ensures QueueOk(Drain(Manager, t, now).0, now)
    decreases |WithStatus(t, Queued)|
  {
    if Head(Manager, t).Some? && Solved(Manager, t, t[Head(Manager, t).value].purl) {
      var id := Head(Manager, t).value;
      var d := Donor(Manager, t, t[id].purl);
      ReuseKeepsOk(t, id, d, now);
      ReuseShrinksQueue(t, id, d, now);
      DrainKeepsOk(Reuse(t, id, d, now), now);
    }
  }

  // ---------------------------------------------------------------- what a drain means for each row

  predicate SameTask(a: Task, b: Task) {
    a.purl == b.purl && a.priority == b.priority
  }

  ghost predicate OnlyRunning(t: Table, ids: set<nat>) {
    forall id :: id in t && t[id].status == Running ==> id in ids
  }

  ghost predicate AtMostOneRunning(t: Table) {
    forall a, b :: a in t && b in t && t[a].status == Running && t[b].status == Running ==> a == b
  }

  ghost predicate RowDrained(t: Table, t': Table, q: seq<nat>, k: nat, id: nat)
    requires k <= |q| && id in t && id in t'
  {
    && SameTask(t'[id], t[id])
    && (t[id].status != Queued ==> t'[id] == t[id])
    && (t'[id].status == Queued ==>
          t[id].status == Queued && t'[id].queuedAt == t[id].queuedAt && exists i :: k <= i < |q| && q[i] == id)
    && t'[id].status != Running
    && (t'[id].status == Completed ==> t[id] == t'[id] || Donors(t, t[id].purl) != {})
  }

  lemma DrainedRow(r: Runner, t: Table, t': Table, q: seq<nat>, k: nat, now: int, id: nat)
    requires Lists(t, q) && k <= |q| && Drained(r, t, q, k, t', now) && id in t && t[id].status != Running
    ensures RowDrained(t, t', q, k, id)
  {
    if id in q {
      var i :| 0 <= i < |q| && q[i] == id;
      if i < k {
        assert CompletedFrom(r, t, t[id], t'[id], now);
      }
    }
  }

  ghost predicate QueueDrained(r: Runner, t: Table, t': Table, next: Option<nat>) {
    && t'.Keys == t.Keys
    && OnlyRunning(t', {})
    && (next.Some? ==> next.value in t' && t'[next.value].status == Queued && !Solved(r, t', t'[next.value].purl))
    && (next.None? ==> WithStatus(t', Queued) == {})
    && (forall id :: id in t ==>
          SameTask(t'[id], t[id]) && (t[id].status != Queued ==> t'[id] == t[id])
          && (t'[id].status == Queued ==> t[id].status == Queued && t'[id].queuedAt == t[id].queuedAt))
    && (next.Some? ==> forall id :: id in t' && t'[id].status == Queued && id != next.value ==>
          KeyLess(ArrivalKey(t', next.value), ArrivalKey(t', id)))
  }

  lemma StillUnsolved(r: Runner, t: Table, t': Table, q: seq<nat>, k: nat, purl: string)
    requires k <= |q| && t'.Keys == t.Keys && forall id :: id in t ==> RowDrained(t, t', q, k, id)
    requires !Solved(r, t, purl)
    ensures !Solved(r, t', purl)
  {
    if Donors(t, purl) == {} {
      forall d | d in t' ensures d !in Donors(t', purl) {
        assert RowDrained(t, t', q, k, d) && d !in Donors(t, purl);
      }
    }
  }

  lemma NextIsFirst(t: Table, t': Table, q: seq<nat>, k: nat)
    requires Lists(t, q) && k < |q| && t'.Keys == t.Keys && forall id :: id in t ==> RowDrained(t, t', q, k, id)
    requires q[k] in t' && t'[q[k]].status == Queued
    ensures forall id :: id in t' && t'[id].status == Queued && id != q[k] ==>
      KeyLess(ArrivalKey(t', q[k]), ArrivalKey(t', id))
  {
    forall id | id in t' && t'[id].status == Queued && id != q[k]
      ensures KeyLess(ArrivalKey(t', q[k]), ArrivalKey(t', id))
    {
      assert RowDrained(t, t', q, k, id) && RowDrained(t, t', q, k, q[k]);
      assert ArrivalKey(t', id) == ArrivalKey(t, id) && ArrivalKey(t', q[k]) == ArrivalKey(t, q[k]);
    }
  }

  lemma RowsDrained(r: Runner, t: Table, t': Table, q: seq<nat>, k: nat, next: Option<nat>)
    requires Lists(t, q) && k <= |q| && t'.Keys == t.Keys && forall id :: id in t ==> RowDrained(t, t', q, k, id)
    requires next == if k < |q| then Some(q[k]) else None
    requires k < |q| ==> q[k] in t && t'[q[k]].status == Queued && !Solved(r, t, t[q[k]].purl)
    ensures QueueDrained(r, t, t', next)
  {
    if k < |q| {
      StillUnsolved(r, t, t', q, k, t[q[k]].purl);
      NextIsFirst(t, t', q, k);
    }
  }

  /** What a drain leaves alone, and that the row it returns is queued, first and without a result. */
  lemma DrainEffect(r: Runner, t: Table, now: int)
    requires r == Manager ==> QueueOk(t, now)
    requires WithStatus(t, Running) == {}
    ensures QueueDrained(r, t, Drain(r, t, now).0, Drain(r, t, now).1)
  {
    DrainPrefix(r, t, now);
    var q := Listing(t);
    var (t', next) := Drain(r, t, now);
    var k: nat :| DrainsTo(r, t, q, k, now, (t', next));
    forall id | id in t ensures RowDrained(t, t', q, k, id) {
      assert id !in WithStatus(t, Running);
      DrainedRow(r, t, t', q, k, now, id);
    }
    if k < |q| { assert q[k] in q; }
    RowsDrained(r, t, t', q, k, next);
  }

  /** A queued row that a drain completes takes report and URL of the row that the runner's donor query lists first
      in the table before the drain, and keeps all else; any other queued row can only change its position. */
  lemma DrainReuses(r: Runner, t: Table, now: int, id: nat)
    requires r == Manager ==> QueueOk(t, now)
    requires id in t && t[id].status == Queued
    ensures
      var t' := Drain(r, t, now).0;
      && id in t'
      && (t'[id].status == Completed ==>
            exists d :: Preferred(r, t, t[id].purl, d) && Carries(t'[id], t[id], t[d], now))
      && (t'[id].status != Completed ==> t'[id].status == Queued && t'[id].(position := t[id].position) == t[id])
  {
    DrainPrefix(r, t, now);
    var (q, t') := (Listing(t), Drain(r, t, now).0);
    var k: nat :| DrainsTo(r, t, q, k, now, Drain(r, t, now));
    var i :| 0 <= i < |q| && q[i] == id;
    if i < k {
      assert CompletedFrom(r, t, t[id], t'[id], now);
      DonorIsPreferred(r, t, t[id].purl);
    }
  }

  // ---------------------------------------------------------------- which reports belong to which package

  /** The reports that are known to have been made for a package. */
  type Known = string -> set<nat>

  predicate RowKnown(row: Task, known: Known) {
    row.report.Some? ==> row.report.value in known(row.purl)
  }

  ghost predicate TableKnown(t: Table, known: Known) {
    forall id :: id in t ==> RowKnown(t[id], known)
  }

  lemma DrainKeepsKnown(r: Runner, t: Table, now: int, known: Known)
    requires r == Manager ==> QueueOk(t, now)
    requires WithStatus(t, Running) == {} && TableKnown(t, known)
    ensures TableKnown(Drain(r, t, now).0, known)
  {
    DrainEffect(r, t, now);
    forall id | id in t ensures RowKnown(Drain(r, t, now).0[id], known) {
      if t[id].status == Queued {
        DrainReuses(r, t, now, id);
      }
    }
  }
}
