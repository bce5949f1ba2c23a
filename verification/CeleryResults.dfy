/** Where the results on the Celery path come from, and what each transaction writes into its row. */
module CeleryResults {
  import opened Options
  import opened TaskTable
  import opened CeleryProtocol
  import opened CeleryGuarantees

  // ---------------------------------------------------------------- one transaction

  /** The opening transaction, while no other row runs: a row whose package has a result takes report and URL of the
      one completed last; any other row that is not completed is started; a completed one stays as it is. */
  lemma BeginWrites(s: State, x: nat)
    requires x in s.live && s.live[x].phase.Begun?
    requires s.live[x].message.id in s.table && WithStatus(s.table, Running) <= {s.live[x].message.id}
    ensures
      var (id, t) := (s.live[x].message.id, s.table);
      var t' := Begin(s, x).table;
      && id in t'
      && (t[id].status == Completed ==> t' == t)
      && (t[id].status != Completed && Solved(Celery, t, t[id].purl) ==>
            exists d :: Preferred(Celery, t, t[id].purl, d) && Carries(t'[id], t[id], t[d], s.clock))
      && (t[id].status != Completed && !Solved(Celery, t, t[id].purl) ==>
            t' == t[id := t[id].(status := Running, startedAt := Some(s.clock), heartbeat := Some(s.clock),
                                 position := None)])
  {
    var (id, t) := (s.live[x].message.id, s.table);
    assert WithStatus(t, Running) - {id} == {};
    if t[id].status != Completed && Solved(Celery, t, t[id].purl) {
      var d := Donor(Celery, t, t[id].purl);
      DonorIsPreferred(Celery, t, t[id].purl);
      var u := t[id := Linked(t[id], t[d], s.clock)];
      DispatchSparesFinished(u, s.clock);
      assert Carries(u[id], t[id], t[d], s.clock) && Begin(s, x).table[id] == u[id];
    }
  }

  /** An analysis that ends well leaves its own report in its row, then its own URL. */
  lemma AnalysisWrites(s: State, x: nat, outcome: Outcome)
    requires x in s.live && outcome.Done?
    requires s.live[x].phase.Analysed? || (s.live[x].phase.Publishing? && outcome.published)
    ensures
      var (copy, id, t') := (s.live[x].phase.copy, s.live[x].message.id, WorkStep(s, x, outcome).table);
      && id in t' && SameTask(t'[id], copy)
      && (s.live[x].phase.Analysed? ==>
            t'[id].status == Completed && t'[id].report == Some(outcome.reference)
            && t'[id].completedAt == Some(s.clock) && t'[id].downloadUrl == copy.downloadUrl)
      && (s.live[x].phase.Publishing? ==>
            t'[id].status == copy.status && t'[id].report == copy.report
            && t'[id].downloadUrl == Some(outcome.reference))
  {}

  /** An analysis served from the cache completes its row with the results that the row had; one that goes on leaves a
      heartbeat in a row that is still running. */
  lemma AnalysisSteps(s: State, x: nat, outcome: Outcome)
    requires x in s.live && s.live[x].phase.Analysing? && !outcome.Raises?
    ensures
      var (copy, id, t, t') := (s.live[x].phase.copy, s.live[x].message.id, s.table, WorkStep(s, x, outcome).table);
      && (outcome.Cached? ==>
            t' == t[id := copy.(status := Completed, completedAt := Some(s.clock))])
      && (outcome.Done? && id in t && t[id].status == Running ==>
            t' == t[id := t[id].(heartbeat := Some(s.clock))])
      && (outcome.Done? && !(id in t && t[id].status == Running) ==> t' == t)
  {}

  /** A view that fails to send marks its row failed. */
  lemma SendFailureWrites(s: State, e: Event)
    requires Enabled(s, e) && e.action.SendFails?
    ensures
      var (v, t') := (s.views[e.action.view], Next(s, e).table);
      && t'.Keys == s.table.Keys + {v.id} && (forall id :: id in s.table && id != v.id ==> t'[id] == s.table[id])
      && t'[v.id].status == Failed && t'[v.id].completedAt == Some(e.at) && t'[v.id].report == v.copy.report
      && SameTask(t'[v.id], v.copy)
  {}

  /** An execution that raised leaves its row failed, off the queue, with the error's category and the results that it
      had. */
  lemma FailureWrites(s: State, x: nat, outcome: Outcome)
    requires x in s.live && s.live[x].phase.Raised? && s.live[x].message.id in s.table
    ensures
      var (id, t, t') := (s.live[x].message.id, s.table, WorkStep(s, x, outcome).table);
      && t'.Keys == t.Keys && (forall other :: other in t && other != id ==> t'[other] == t[other])
      && t'[id].status == Failed && t'[id].errorCategory == s.live[x].phase.category && t'[id].position == None
      && t'[id].completedAt == Some(s.clock) && t'[id].report == t[id].report
      && t'[id].downloadUrl == t[id].downloadUrl && SameTask(t'[id], t[id])
  {}

  // ---------------------------------------------------------------- every run

  /** The step saves a report of an analysis of the package. */
  predicate Makes(s: State, e: Event, purl: string)
    requires Enabled(s, e)
  {
    && e.action.Work? && e.action.outcome.Done? && s.live[e.action.execution].phase.Analysed?
    && s.live[e.action.execution].phase.copy.purl == purl
  }

  function MadeBy(s: State, e: Event, purl: string): set<nat>
    requires Enabled(s, e)
  {
    if Makes(s, e, purl) then {e.action.outcome.reference} else {}
  }

  /** The reports that analyses of the package save in a run. */
  ghost function Made(s: State, es: seq<Event>, purl: string): set<nat>
    requires Valid(s, es)
    decreases |es|
  {
    if es == [] then {} else MadeBy(s, es[0], purl) + Made(Next(s, es[0]), es[1..], purl)
  }

  predicate PhaseKnown(p: Phase, known: Known) {
    (p.Analysing? || p.Analysed? || p.Publishing?) ==> RowKnown(p.copy, known)
  }

  ghost predicate AllKnown(s: State, known: Known) {
    && TableKnown(s.table, known)
    && (forall x :: x in s.live ==> PhaseKnown(s.live[x].phase, known))
    && (forall v :: v in s.views ==> RowKnown(s.views[v].copy, known))
  }

  function With(known: Known, s: State, e: Event): Known
    requires Enabled(s, e)
  {
    purl => known(purl) + (if Enabled(s, e) then MadeBy(s, e, purl) else {})
  }

  lemma AllKnownGrows(s: State, known: Known, known': Known)
    requires AllKnown(s, known) && forall purl :: known(purl) <= known'(purl)
    ensures AllKnown(s, known')
  {
    forall id | id in s.table ensures RowKnown(s.table[id], known') {
      assert known(s.table[id].purl) <= known'(s.table[id].purl);
    }
    forall x | x in s.live ensures PhaseKnown(s.live[x].phase, known') {
      var p := s.live[x].phase;
      if p.Analysing? || p.Analysed? || p.Publishing? {
        assert known(p.copy.purl) <= known'(p.copy.purl);
      }
    }
    forall v | v in s.views ensures RowKnown(s.views[v].copy, known') {
      assert known(s.views[v].copy.purl) <= known'(s.views[v].copy.purl);
    }
  }

  lemma DispatchKeepsKnown(s: State, known: Known)
    requires AllKnown(s, known)
    ensures AllKnown(Dispatch(s), known)
  {
    if WithStatus(s.table, Running) == {} {
      DrainKeepsKnown(Celery, s.table, s.clock, known);
    }
  }

  lemma LinkKeepsKnown(t: Table, id: nat, now: int, known: Known)
    requires TableKnown(t, known) && id in t && Solved(Celery, t, t[id].purl)
    ensures TableKnown(t[id := Linked(t[id], t[Donor(Celery, t, t[id].purl)], now)], known)
  {
    var d := Donor(Celery, t, t[id].purl);
    assert RowKnown(t[d], known);
  }

  lemma BeginKeepsKnown(s: State, x: nat, known: Known)
    requires AllKnown(s, known) && x in s.live
    ensures AllKnown(Begin(s, x), known)
  {
    var (t, id) := (s.table, s.live[x].message.id);
    if id in t && Solved(Celery, t, t[id].purl) {
      LinkKeepsKnown(t, id, s.clock, known);
      DispatchKeepsKnown(s.(table := t[id := Linked(t[id], t[Donor(Celery, t, t[id].purl)], s.clock)]), known);
    }
  }

  /** A step of an execution that is not the save of its report. */
  lemma WorkKeepsKnown(s: State, x: nat, outcome: Outcome, known: Known)
    requires AllKnown(s, known) && x in s.live && !(outcome.Done? && s.live[x].phase.Analysed?)
    ensures AllKnown(WorkStep(s, x, outcome), known)
  {
    assert PhaseKnown(s.live[x].phase, known);
    if s.live[x].phase.Begun? {
      BeginKeepsKnown(s, x, known);
    } else if s.live[x].phase.Dispatching? || s.live[x].phase.RaisedDispatching? {
      DispatchKeepsKnown(s, known);
    } else {
      SaveKeepsKnown(s, x, outcome, known);
    }
  }

  lemma SaveKeepsKnown(s: State, x: nat, outcome: Outcome, known: Known)
    requires AllKnown(s, known) && x in s.live && !(outcome.Done? && s.live[x].phase.Analysed?)
    requires var p := s.live[x].phase; p.Analysing? || p.Analysed? || p.Publishing? || p.Raised?
    ensures AllKnown(WorkStep(s, x, outcome), known)
  {
    assert PhaseKnown(s.live[x].phase, known);
  }

  lemma ReportKeepsKnown(s: State, x: nat, outcome: Outcome, known: Known)
    requires AllKnown(s, known) && x in s.live && outcome.Done? && s.live[x].phase.Analysed?
    requires outcome.reference in known(s.live[x].phase.copy.purl)
    ensures AllKnown(WorkStep(s, x, outcome), known)
  {}

  lemma OtherKeepsKnown(s: State, e: Event, known: Known)
    requires AllKnown(s, known) && Enabled(s, e) && !e.action.Work?
    ensures AllKnown(Next(s, e), known)
  {
    if e.action.Create? || e.action.Enqueue? || e.action.SendFails? {
      SubmissionKeepsKnown(s, e, known);
    } else if e.action.CheckTimeouts? || e.action.Cleanup? {
      PeriodicKeepsKnown(s, e, known);
    }
  }

  lemma SubmissionKeepsKnown(s: State, e: Event, known: Known)
    requires AllKnown(s, known) && Enabled(s, e) && (e.action.Create? || e.action.Enqueue? || e.action.SendFails?)
    ensures AllKnown(Next(s, e), known)
  {
    if e.action.SendFails? {
      assert RowKnown(s.views[e.action.view].copy, known);
    } else if e.action.Enqueue? {
      assert RowKnown(s.table[e.action.id], known);
    }
  }

  lemma PeriodicKeepsKnown(s: State, e: Event, known: Known)
    requires AllKnown(s, known) && Enabled(s, e) && (e.action.CheckTimeouts? || e.action.Cleanup?)
    ensures AllKnown(Next(s, e), known)
  {
    if e.action.CheckTimeouts? && TimedOutRows(s.table, e.at) != {} {
      DispatchKeepsKnown(s.(clock := e.at, table := AllExpired(s.table, e.at)), known);
    }
  }

  lemma StepKeepsKnown(s: State, e: Event, known: Known)
    requires AllKnown(s, known) && Enabled(s, e)
    ensures AllKnown(Next(s, e), With(known, s, e))
  {
    var s' := s.(clock := e.at);
    if e.action.Work? && e.action.outcome.Done? && s.live[e.action.execution].phase.Analysed? {
      var copy := s.live[e.action.execution].phase.copy;
      assert e.action.outcome.reference in MadeBy(s, e, copy.purl);
      AllKnownGrows(s', known, With(known, s, e));
      ReportKeepsKnown(s', e.action.execution, e.action.outcome, With(known, s, e));
    } else {
      if e.action.Work? {
        WorkKeepsKnown(s', e.action.execution, e.action.outcome, known);
      } else {
        OtherKeepsKnown(s, e, known);
      }
      AllKnownGrows(Next(s, e), known, With(known, s, e));
    }
  }

  lemma {:induction false} RunKeepsKnown(s: State, es: seq<Event>, known: Known, purl: string, id: nat)
    requires Valid(s, es) && AllKnown(s, known)
    requires id in Run(s, es).table && Run(s, es).table[id].purl == purl && Run(s, es).table[id].report.Some?
    ensures Run(s, es).table[id].report.value in known(purl) + Made(s, es, purl)
    decreases |es|
  {
    if es != [] {
      StepKeepsKnown(s, es[0], known);
      RunKeepsKnown(Next(s, es[0]), es[1..], With(known, s, es[0]), purl, id);
    }
  }

  /** In every run, whatever is delivered twice, lost, retried, timed out or deleted, the report of a row was saved
      by an analysis of the same package. */
  lemma ReportsAreOwn(es: seq<Event>, id: nat)
    requires Valid(Initial, es)
    requires id in Run(Initial, es).table && Run(Initial, es).table[id].report.Some?
    ensures Run(Initial, es).table[id].report.value in Made(Initial, es, Run(Initial, es).table[id].purl)
  {
    RunKeepsKnown(Initial, es, purl => {}, Run(Initial, es).table[id].purl, id);
  }
}
