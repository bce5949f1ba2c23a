/** How many steps of the worker a queued row waits for. */
module QueueProgress {
  import opened Options
  import opened TaskTable
  import opened QueueProtocol
  import opened QueueGuarantees
  import opened QueueTimeouts

  /** Nobody stops the worker and the process does not crash. */
  predicate Undisturbed(es: seq<Event>) {
    forall i :: 0 <= i < |es| ==> !es[i].action.Crash? && !es[i].action.StopWorker?
  }

  function WorkSteps(es: seq<Event>): nat {
    if es == [] then 0 else (if es[0].action.Work? then 1 else 0) + WorkSteps(es[1..])
  }

  /** How many steps at most until the worker has selected again. */
  function Rank(p: Phase): nat {
    match p
    case Selecting => 1
    case Sweeping => 2
    case LoopTop => 3
    case Renumbering => 4
    case Publishing(_, _) => 5
    case Raised(_, _, _) => 5
    case Saving(_, _) => 6
    case Analysing(_, _) => 7
    case Picked(_, _) => 8
  }

  function Remaining(s: State): nat {
    if s.current.Some? && s.current.value in s.live then Rank(s.live[s.current.value]) else 8
  }

  /** The invariant of runs that nothing disturbs. */
  ghost predicate Calm(s: State) {
    Inv(s) && NoOrphans(s) && !s.stop
  }

  /** In such runs no running row ever puts a selection off. */
  lemma SelectionIsNotPutOff(s: State, e: Event)
    requires Calm(s) && Enabled(s, e) && e.action.Work? && s.live[e.action.thread].Selecting?
    ensures Selects(s, e)
  {
    forall id | id in s.table ensures s.table[id].status != Running {
      forall other | other in s.live ensures !Analyses(s.live[other], id) {
        assert other == e.action.thread;
      }
    }
  }

  lemma StepStaysCalm(s: State, e: Event)
    requires Calm(s) && Enabled(s, e) && !e.action.Crash? && !e.action.StopWorker?
    ensures Calm(Next(s, e))
  {
    StepKeepsInv(s, e);
    NoOrphansKept(s, e);
  }

  /** Each step of the worker uses up one of the steps remaining; only a selection renews them. */
  lemma StepUsesRank(s: State, e: Event)
    requires Calm(s) && Enabled(s, e) && !e.action.Crash? && !e.action.StopWorker?
    ensures Remaining(Next(s, e)) + (if e.action.Work? then 1 else 0) <= Remaining(s) + (if Selects(s, e) then 8 else 0)
  {
    if e.action.Work? {
      var thread := e.action.thread;
      assert s.current == Some(thread);
      if s.live[thread].Selecting? {
        SelectionIsNotPutOff(s, e);
      }
    }
  }

  lemma {:induction false} StepsBySelections(s: State, es: seq<Event>)
    requires Calm(s) && Valid(s, es) && Undisturbed(es)
    ensures WorkSteps(es) <= Remaining(s) + 8 * Selections(s, es)
    decreases |es|
  {
    if es != [] {
      StepStaysCalm(s, es[0]);
      StepUsesRank(s, es[0]);
      StepsBySelections(Next(s, es[0]), es[1..]);
    }
  }

  lemma {:induction false} NoCrashes(es: seq<Event>)
    requires Undisturbed(es)
    ensures Crashes(es) == 0
  {
    if es != [] {
      assert !es[0].action.Crash?;
      NoCrashes(es[1..]);
    }
  }

  lemma {:induction false} RunStaysCalm(s: State, es: seq<Event>)
    requires Calm(s) && Valid(s, es) && Undisturbed(es)
    ensures Calm(Run(s, es))
    decreases |es|
  {
    if es != [] {
      StepStaysCalm(s, es[0]);
      RunStaysCalm(Next(s, es[0]), es[1..]);
    }
  }

  /** Bounded waiting in steps: in a run that nothing disturbs, a row that stays queued with k rows ahead of it
      sees at most 8 (k + 2) steps of the worker, however many rows of equal or lower priority are submitted. */
  lemma BoundedSteps(before: seq<Event>, es: seq<Event>, id: nat)
    requires Valid(Initial, before) && Undisturbed(before)
    requires Valid(Run(Initial, before), es) && Undisturbed(es) && StaysQueued(Run(Initial, before), es, id)
    ensures WorkSteps(es) <= 8 * (|Ahead(Run(Initial, before).table, id)| + 2)
  {
    var s := Run(Initial, before);
    assert Calm(Initial);
    RunStaysCalm(Initial, before);
    StepsBySelections(s, es);
    BoundedWaiting(s, es, id);
    NoCrashes(es);
  }
}
