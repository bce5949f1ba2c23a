/** Submissions that meet a worker that was told to stop. */
module QueueStop {
  import opened Options
  import opened QueueProtocol
  import opened QueueGuarantees
  import opened QueueTimeouts

  /** Nobody but the worker acts. */
  ghost predicate WorkOnly(es: seq<Event>) {
    forall i :: 0 <= i < |es| ==> es[i].action.Work?
  }

  /** A live worker has been told to stop and has not looked yet. */
  predicate Stopping(s: State) {
    s.stop && s.current.Some? && s.current.value in s.live
  }

  /** Left to itself, the worker never exits. */
  ghost predicate KeepsServing(s: State) {
    forall es :: Valid(s, es) && WorkOnly(es) ==> Run(s, es).live != map[]
  }

  lemma {:induction false} ServesOn(s: State, es: seq<Event>)
    requires Inv(s) && !s.stop && s.live != map[] && Valid(s, es) && WorkOnly(es)
    ensures Run(s, es).live != map[]
    decreases |es|
  {
    if es != [] {
      StepKeepsInv(s, es[0]);
      var thread := es[0].action.thread;
      assert thread in Next(s, es[0]).live && !Next(s, es[0]).stop;
      ServesOn(Next(s, es[0]), es[1..]);
    }
  }

  /** How many steps the worker takes to the top of its loop when nothing raises. */
  function StepsToTop(p: Phase): nat {
    match p
    case LoopTop => 0
    case Renumbering => 1
    case Publishing(_, _) => 2
    case Raised(_, _, _) => 2
    case Saving(_, _) => 3
    case Analysing(_, _) => 4
    case Picked(_, _) => 5
    case Selecting => 6
    case Sweeping => 7
  }

  lemma StepNearsTop(s: State, e: Event)
    requires Enabled(s, e) && e.action.Work? && e.action.raises == None
    requires !s.live[e.action.thread].LoopTop?
    ensures Next(s, e).stop == s.stop && e.action.thread in Next(s, e).live
    ensures StepsToTop(Next(s, e).live[e.action.thread]) < StepsToTop(s.live[e.action.thread])
  {}

  /** A stopping worker can reach its exit by its own steps. */
  lemma {:induction false} ExitRun(s: State, thread: nat) returns (es: seq<Event>)
    requires Inv(s) && s.stop && thread in s.live
    ensures Valid(s, es) && WorkOnly(es) && Run(s, es).live == map[]
    decreases StepsToTop(s.live[thread])
  {
    var e := Step(s.clock + 1, thread);
    StepKeepsInv(s, e);
    if s.live[thread].LoopTop? {
      assert Next(s, e).live == map[];
      es := [e];
      assert es[1..] == [];
    } else {
      StepNearsTop(s, e);
      var rest := ExitRun(Next(s, e), thread);
      es := [e] + rest;
      assert es[1..] == rest;
    }
  }

  /** A submission makes sure of a worker that keeps serving if and only if no live worker has been told to stop:
      finding such a worker alive, the submission neither starts another one nor takes the stop back. */
  lemma SubmissionServedIff(s: State, submit: Event, ensure: Event)
    requires Inv(s) && Enabled(s, submit) && submit.action.Submit?
    requires Enabled(Next(s, submit), ensure) && ensure.action.EnsureWorker?
    ensures KeepsServing(Next(Next(s, submit), ensure)) <==> !Stopping(s)
  {
    var s' := Next(Next(s, submit), ensure);
    StepKeepsInv(s, submit);
    StepKeepsInv(Next(s, submit), ensure);
    if Stopping(s) {
      var es := ExitRun(s', s.current.value);
    } else {
      StaysOrStarts(s, submit, ensure);
      forall es | Valid(s', es) && WorkOnly(es) ensures Run(s', es).live != map[] {
        ServesOn(s', es);
      }
    }
  }

  lemma StaysOrStarts(s: State, submit: Event, ensure: Event)
    requires Inv(s) && Enabled(s, submit) && submit.action.Submit? && !Stopping(s)
    requires Enabled(Next(s, submit), ensure) && ensure.action.EnsureWorker?
    ensures var s' := Next(Next(s, submit), ensure); !s'.stop && s'.live != map[]
  {
    var s' := Next(Next(s, submit), ensure);
    assert s'.current.Some? && s'.current.value in s'.live;
  }

  // ---------------------------------------------------------------- the row left behind

  /** The worker does not select again before it looks at the stop flag, and works on another row if on any. */
  predicate PastSelection(p: Phase, id: nat) {
    !p.Sweeping? && !p.Selecting?
    && (p.Picked? || p.Analysing? || p.Saving? || p.Raised? || p.Publishing? ==> p.id != id)
  }

  ghost predicate LeftBehind(s: State, id: nat) {
    IsQueued(s, id) && s.stop && forall thread :: thread in s.live ==> PastSelection(s.live[thread], id)
  }

  lemma StepLeavesBehind(s: State, e: Event, id: nat)
    requires Inv(s) && LeftBehind(s, id) && Enabled(s, e) && e.action.Work?
    ensures LeftBehind(Next(s, e), id) && !Selects(s, e)
  {
    WorkRow(s, e, id);
  }

  /** A row submitted behind a stopping worker that is past its selection is not served: whatever the worker
      still does, it makes no selection, and the row is queued when the worker has exited. */
  lemma {:induction false} StoppedWorkerLeavesRow(s: State, es: seq<Event>, id: nat)
    requires Inv(s) && LeftBehind(s, id) && Valid(s, es) && WorkOnly(es)
    ensures IsQueued(Run(s, es), id) && Selections(s, es) == 0
    decreases |es|
  {
    if es != [] {
      StepKeepsInv(s, es[0]);
      StepLeavesBehind(s, es[0], id);
      StoppedWorkerLeavesRow(Next(s, es[0]), es[1..], id);
    }
  }

  /** It happens: a row submitted while a stopped worker finishes its analysis. */
  lemma RowIsLeftBehind()
    ensures exists s, id :: Reached(s, true) && LeftBehind(s, id) && Stopping(s)
  {
    var s := RowStarts();
    ReachedNext(s, true, Event(8, StopWorker));
    s := Next(s, Event(8, StopWorker));
    ReachedNext(s, true, Event(9, Create(1, "b", 0, 30)));
    s := Next(s, Event(9, Create(1, "b", 0, 30)));
    ReachedNext(s, true, Event(10, Submit(1)));
    s := Next(s, Event(10, Submit(1)));
    ReachedNext(s, true, Event(11, EnsureWorker(1)));
    s := Next(s, Event(11, EnsureWorker(1)));
    assert LeftBehind(s, 1) && Stopping(s);
  }
}
