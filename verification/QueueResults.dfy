/** Where the queue manager's results come from: each completed row carries a report made for its own package. */
module QueueResults {
  import opened Options
  import opened TaskTable
  import opened QueueManager
  import opened QueueProtocol
  import opened QueueGuarantees

  // ---------------------------------------------------------------- one step

  /** The worker completes the row from an earlier result. */
  ghost predicate Reuses(s: State, e: Event, id: nat, row: Task)
    requires Enabled(s, e) && e.action.Work? && id in s.table
  {
    s.live[e.action.thread].Selecting? && s.table[id].status == Queued
    && exists d :: Preferred(Manager, s.table, s.table[id].purl, d) && Carries(row, s.table[id], s.table[d], e.at)
  }

  /** The worker saves the report of its own analysis. */
  predicate SavesReport(s: State, e: Event, id: nat)
    requires Enabled(s, e)
  {
    e.action.Work? && s.live[e.action.thread].Saving? && s.live[e.action.thread].id == id && e.action.raises == None
  }

  /** The worker saves its row object once more, with the URL. */
  predicate SavesUrl(s: State, e: Event, id: nat)
    requires Enabled(s, e)
  {
    e.action.Work? && s.live[e.action.thread].Publishing? && s.live[e.action.thread].id == id && e.action.published
  }

  lemma SelectionReuses(s: State, e: Event, id: nat)
    requires Inv(s) && Enabled(s, e) && Selects(s, e) && id in s.table && s.table[id].status != Completed
    ensures id in Next(s, e).table
    ensures Next(s, e).table[id].status == Completed ==> Reuses(s, e, id, Next(s, e).table[id])
  {
    LaterKeepsOk(s.table, s.clock, e.at);
    DrainRow(s.table, e.at, id);
    if s.table[id].status == Queued {
      DrainReuses(Manager, s.table, e.at, id);
    }
  }

  /** A row becomes completed in three ways only: with the result that the selection reuses, with the report of its
      own analysis, or with its own report and URL over a submission of the same row meanwhile. */
  lemma CompletesBy(s: State, e: Event, id: nat)
    requires Inv(s) && Enabled(s, e) && id in s.table && s.table[id].status != Completed
    requires id in Next(s, e).table && Next(s, e).table[id].status == Completed
    ensures e.action.Work?
    ensures Reuses(s, e, id, Next(s, e).table[id]) || SavesReport(s, e, id) || SavesUrl(s, e, id)
  {
    if e.action.Work? {
      assert PhaseOk(s.table, s.live[e.action.thread]);
      if Selects(s, e) {
        SelectionReuses(s, e, id);
      } else {
        WorkRow(s, e, id);
      }
    }
  }

  /** What the worker's saves leave in the row that it analyses: the report, the time and, when it is published, the
      URL of this analysis. */
  lemma AnalysisWrites(s: State, e: Event, id: nat)
    requires Inv(s) && Enabled(s, e) && (SavesReport(s, e, id) || SavesUrl(s, e, id))
    ensures id in Next(s, e).table
    ensures
      var (copy, row) := (s.live[e.action.thread].copy, Next(s, e).table[id]);
      && row.status == Completed && row.position == None && SameTask(row, copy)
      && (SavesReport(s, e, id) ==> row.report == Some(e.action.reference) && row.completedAt == Some(e.at))
      && (SavesUrl(s, e, id) ==>
            row.downloadUrl == Some(e.action.reference) && row.report == copy.report
            && row.completedAt == copy.completedAt)
  {
    assert PhaseOk(s.table, s.live[e.action.thread]);
  }

  /** What starting a picked row and the heartbeat during its analysis write. */
  lemma StartWrites(s: State, e: Event)
    requires Inv(s) && Enabled(s, e) && e.action.Work?
    requires s.live[e.action.thread].Picked? || (s.live[e.action.thread].Analysing? && e.action.raises == None)
    ensures
      var (p, t') := (s.live[e.action.thread], Next(s, e).table);
      && t'.Keys == s.table.Keys && (forall id :: id in s.table && id != p.id ==> t'[id] == s.table[id])
      && t'[p.id].status == Running && t'[p.id].position == None && t'[p.id].heartbeat == Some(e.at)
      && t'[p.id].startedAt == (if p.Picked? then Some(e.at) else p.copy.startedAt)
      && t'[p.id].report == p.copy.report && SameTask(t'[p.id], s.table[p.id])
  {
    assert PhaseOk(s.table, s.live[e.action.thread]);
  }

  // ---------------------------------------------------------------- every run

  /** The step saves a report of an analysis of the package. */
  predicate Makes(s: State, e: Event, purl: string)
    requires Enabled(s, e)
  {
    e.action.Work? && s.live[e.action.thread].Saving? && s.live[e.action.thread].copy.purl == purl
    && e.action.raises == None
  }

  function MadeBy(s: State, e: Event, purl: string): set<nat>
    requires Enabled(s, e)
  {
    if Makes(s, e, purl) then {e.action.reference} else {}
  }

  /** The reports that analyses of the package save in a run. */
  ghost function Made(s: State, es: seq<Event>, purl: string): set<nat>
    requires Valid(s, es)
    decreases |es|
  {
    if es == [] then {} else MadeBy(s, es[0], purl) + Made(Next(s, es[0]), es[1..], purl)
  }

  predicate PhaseKnown(p: Phase, known: Known) {
    (p.Picked? || p.Analysing? || p.Saving? || p.Raised? || p.Publishing?) ==> RowKnown(p.copy, known)
  }

  ghost predicate AllKnown(s: State, known: Known) {
    TableKnown(s.table, known) && forall thread :: thread in s.live ==> PhaseKnown(s.live[thread], known)
  }

  function With(known: Known, s: State, e: Event): Known
    requires Enabled(s, e)
  {
    purl => known(purl) + (if Enabled(s, e) then MadeBy(s, e, purl) else {})
  }

  lemma SelectionKeepsKnown(s: State, e: Event, known: Known)
    requires Inv(s) && Enabled(s, e) && Selects(s, e) && AllKnown(s, known)
    ensures AllKnown(Next(s, e), known)
  {
    LaterKeepsOk(s.table, s.clock, e.at);
    DrainKeepsKnown(Manager, s.table, e.at, known);
  }

  lemma KnownGrows(known: Known, s: State, e: Event, row: Task)
    requires Enabled(s, e) && RowKnown(row, known)
    ensures RowKnown(row, With(known, s, e))
  {}

  lemma SaveKeepsKnown(s: State, e: Event, known: Known)
    requires Inv(s) && Enabled(s, e) && e.action.Work? && AllKnown(s, known)
    requires s.live[e.action.thread].Saving? && e.action.raises == None
    ensures AllKnown(Next(s, e), With(known, s, e))
  {
    var p := s.live[e.action.thread];
    var row := Completing(p.copy, e.action.reference, e.at);
    assert e.action.reference in MadeBy(s, e, p.copy.purl);
    assert RowKnown(row, With(known, s, e));
    forall id | id in s.table ensures RowKnown(s.table[id], With(known, s, e)) {
      KnownGrows(known, s, e, s.table[id]);
    }
  }

  /** Every other step of the worker copies rows, or changes something else in them. */
  lemma WorkKeepsKnown(s: State, e: Event, known: Known)
    requires Inv(s) && Enabled(s, e) && e.action.Work? && !Selects(s, e) && AllKnown(s, known)
    requires !(s.live[e.action.thread].Saving? && e.action.raises == None)
    ensures AllKnown(Next(s, e), known)
  {
    var p := s.live[e.action.thread];
    assert PhaseKnown(p, known);
    if p.LoopTop? || p.Sweeping? || p.Selecting? || p.Renumbering? {
      LoopKeepsKnown(s, e, known);
    }
  }

  lemma LoopKeepsKnown(s: State, e: Event, known: Known)
    requires Enabled(s, e) && e.action.Work? && !Selects(s, e) && AllKnown(s, known)
    requires var p := s.live[e.action.thread]; p.LoopTop? || p.Sweeping? || p.Selecting? || p.Renumbering?
    ensures AllKnown(Next(s, e), known)
  {}

  lemma AllKnownGrows(s: State, known: Known, known': Known)
    requires AllKnown(s, known) && forall purl :: known(purl) <= known'(purl)
    ensures AllKnown(s, known')
  {
    forall id | id in s.table ensures RowKnown(s.table[id], known') {
      assert known(s.table[id].purl) <= known'(s.table[id].purl);
    }
    forall thread | thread in s.live ensures PhaseKnown(s.live[thread], known') {
      var p := s.live[thread];
      if p.Picked? || p.Analysing? || p.Saving? || p.Raised? || p.Publishing? {
        assert known(p.copy.purl) <= known'(p.copy.purl);
      }
    }
  }

  lemma StepKeepsKnown(s: State, e: Event, known: Known)
    requires Inv(s) && Enabled(s, e) && AllKnown(s, known)
    ensures AllKnown(Next(s, e), With(known, s, e))
  {
    if e.action.Work? && s.live[e.action.thread].Saving? && e.action.raises == None {
      SaveKeepsKnown(s, e, known);
    } else {
      if e.action.Work? && Selects(s, e) {
        SelectionKeepsKnown(s, e, known);
      } else if e.action.Work? {
        WorkKeepsKnown(s, e, known);
      }
      AllKnownGrows(Next(s, e), known, With(known, s, e));
    }
  }

  lemma {:induction false} RunKeepsKnown(s: State, es: seq<Event>, known: Known, purl: string, id: nat)
    requires Inv(s) && Valid(s, es) && AllKnown(s, known)
    requires id in Run(s, es).table && Run(s, es).table[id].purl == purl && Run(s, es).table[id].report.Some?
    ensures Run(s, es).table[id].report.value in known(purl) + Made(s, es, purl)
    decreases |es|
  {
    if es != [] {
      StepKeepsInv(s, es[0]);
      StepKeepsKnown(s, es[0], known);
      RunKeepsKnown(Next(s, es[0]), es[1..], With(known, s, es[0]), purl, id);
    }
  }

  /** In every run, whatever is submitted, resubmitted, swept or crashed, the report of a row was saved by an
      analysis of the same package. */
  lemma ReportsAreOwn(es: seq<Event>, id: nat)
    requires Valid(Initial, es)
    requires id in Run(Initial, es).table && Run(Initial, es).table[id].report.Some?
    ensures Run(Initial, es).table[id].report.value in Made(Initial, es, Run(Initial, es).table[id].purl)
  {
    assert QueueOk(Initial.table, 0);
    RunKeepsKnown(Initial, es, purl => {}, Run(Initial, es).table[id].purl, id);
  }
}
