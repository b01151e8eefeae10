/**
  The lifecycle of a runtime (src/runtime/agent-runtime.ts:64-197, 249-382, 397-415).

  A step is a stretch of the source that runs without interruption, or something outside settles: a
  tool, the drain timer.  The state holds the runtime's fields, the runner's table of active
  executions and, of every accepted `executeTask`, where it stands and what became of its tool.  The
  class at the end does what the source does with the fields and is proved to take exactly these steps.
*/
module RuntimeLifecycle {
  import opened Common

  datatype Event =
    | Started
    | Received(run: nat)
    | Completed(run: nat)
    | Failed(run: nat)
    | Stopped(stranded: seq<string>)

  datatype Tool = NotCalled | Active | Settled

  /** The finally block of executeTask: not reached, waiting for an active execution, or through. */
  datatype Leave = Inside | Waiting(on: nat) | Gone

  /** One accepted call of executeTask, its `run()` and its tool; it is told from others by its number. */
  datatype Run = Run(task: string, outcome: Option<bool>, tool: Tool, leave: Leave)

  /** The shared shutdown: not begun, waiting for the promises of these runs, or done. */
  datatype Shutdown = Running | Draining(awaited: set<nat>) | Finished

  datatype State = State(
    started: bool,
    stopped: bool,
    shutdown: Shutdown,
    inFlight: seq<string>,
    promises: map<string, nat>,
    resolved: set<nat>,
    active: map<string, nat>,
    runs: seq<Run>,
    log: seq<Event>)

  const MAX_TIMER_DELAY_MS := 2_147_483_647

  predicate NoRepeats(s: seq<string>) {
    forall i, j :: 0 <= i < j < |s| ==> s[i] != s[j]
  }

  function WithoutTask(s: seq<string>, task: string): (r: seq<string>)
    ensures NoRepeats(s) ==> NoRepeats(r) && forall t :: t in r <==> t in s && t != task
  {
    if s == [] then []
    else
      var rest := WithoutTask(s[1..], task);
      assert NoRepeats(s) ==> NoRepeats(s[1..]) && s[0] !in s[1..];
      if s[0] == task then rest else [s[0]] + rest
  }

  function Times(log: seq<Event>, e: Event): nat {
    multiset(log)[e]
  }

  lemma TimesPush(log: seq<Event>, e: Event)
    ensures forall f :: Times(log + [e], f) == Times(log, f) + if f == e then 1 else 0
  {
    assert multiset(log + [e]) == multiset(log) + multiset{e};
  }

  /** A run is received once, and settles at most once and as it ended; runs not yet accepted have no events. */
  ghost predicate Told(log: seq<Event>, runs: seq<Run>, r: nat) {
    && Times(log, Received(r)) == (if r < |runs| then 1 else 0)
    && Times(log, Completed(r)) == (if r < |runs| && runs[r].outcome == Some(true) then 1 else 0)
    && Times(log, Failed(r)) == (if r < |runs| && runs[r].outcome == Some(false) then 1 else 0)
  }

  /** A settled event comes after its received event. */
  ghost predicate InOrder(log: seq<Event>) {
    forall k :: 0 <= k < |log| && (log[k].Completed? || log[k].Failed?) ==> Received(log[k].run) in log[..k]
  }

  /** There is one stopped event once the runtime has stopped, and none before. */
  ghost predicate StoppedOnce(log: seq<Event>, finished: bool) {
    && (forall j, k :: 0 <= j < k < |log| ==> !(log[j].Stopped? && log[k].Stopped?))
    && (finished <==> exists k :: 0 <= k < |log| && log[k].Stopped?)
  }

  ghost predicate LogOk(log: seq<Event>, runs: seq<Run>, finished: bool) {
    (forall r: nat :: Told(log, runs, r)) && InOrder(log) && StoppedOnce(log, finished)
  }

  lemma ReceivedKeepsLog(log: seq<Event>, runs: seq<Run>, finished: bool, run: Run)
    requires LogOk(log, runs, finished) && run.outcome == None
    ensures LogOk(log + [Received(|runs|)], runs + [run], finished)
  {
    var e := Received(|runs|);
    TimesPush(log, e);
    forall r: nat ensures Told(log + [e], runs + [run], r) {
      assert Told(log, runs, r);
    }
    KeepsOrder(log, e);
    KeepsStopped(log, e, finished);
  }

  lemma SettledKeepsLog(log: seq<Event>, runs: seq<Run>, finished: bool, i: nat, ok: bool)
    requires LogOk(log, runs, finished) && i < |runs| && runs[i].outcome == None
    ensures LogOk(log + [if ok then Completed(i) else Failed(i)], runs[i := runs[i].(outcome := Some(ok))], finished)
  {
    var e := if ok then Completed(i) else Failed(i);
    TimesPush(log, e);
    assert Told(log, runs, i);
    assert Received(i) in multiset(log);
    var after := runs[i := runs[i].(outcome := Some(ok))];
    forall r: nat ensures Told(log + [e], after, r) {
      assert Told(log, runs, r);
    }
    KeepsOrder(log, e);
    KeepsStopped(log, e, finished);
  }

  lemma OtherKeepsLog(log: seq<Event>, runs: seq<Run>, finished: bool, e: Event)
    requires LogOk(log, runs, finished) && (e.Started? || (e.Stopped? && !finished))
    ensures LogOk(log + [e], runs, finished || e.Stopped?)
  {
    TimesPush(log, e);
    forall r: nat ensures Told(log + [e], runs, r) {
      assert Told(log, runs, r);
    }
    KeepsOrder(log, e);
    if e.Stopped? {
      assert (log + [e])[|log|] == e;
    } else {
      KeepsStopped(log, e, finished);
    }
  }

  lemma KeepsOrder(log: seq<Event>, e: Event)
    requires InOrder(log) && (e.Completed? || e.Failed? ==> Received(e.run) in log)
    ensures InOrder(log + [e])
  {
    var after := log + [e];
    forall k | 0 <= k < |after| && (after[k].Completed? || after[k].Failed?) ensures Received(after[k].run) in after[..k] {
      assert after[..k] == if k < |log| then log[..k] else log;
    }
  }

  lemma KeepsStopped(log: seq<Event>, e: Event, finished: bool)
    requires StoppedOnce(log, finished) && !e.Stopped?
    ensures StoppedOnce(log + [e], finished)
  {
    if k :| 0 <= k < |log| && log[k].Stopped? {
      assert (log + [e])[k].Stopped?;
    }
  }

  /** What changes no outcome says nothing about the events. */
  lemma SameOutcomesKeepLog(log: seq<Event>, runs: seq<Run>, finished: bool, after: seq<Run>)
    requires LogOk(log, runs, finished) && |after| == |runs|
    requires forall r :: 0 <= r < |runs| ==> after[r].outcome == runs[r].outcome
    ensures LogOk(log, after, finished)
  {
    forall r: nat ensures Told(log, after, r) {
      assert Told(log, runs, r);
    }
  }

  // ---------------------------------------------------------------------------------------
  // Steps

  datatype Step =
    | Start
    | Execute(task: string)
    | CallTool(run: nat)
    | ToolSettles(run: nat)
    | Forget(run: nat)
    | RunSettles(run: nat, ok: bool)
    | LeaveTask(run: nat)
    | LateRelease(run: nat)
    | Stop(drainTimeoutMs: Option<int>)
    | DrainEnds(timedOut: bool)

  predicate Holds(table: map<string, nat>, task: string, run: nat) {
    task in table && table[task] == run
  }

  predicate ValidTimeout(drainTimeoutMs: Option<int>) {
    drainTimeoutMs.Some? ==> 0 <= drainTimeoutMs.value <= MAX_TIMER_DELAY_MS
  }

  predicate Enabled(s: State, step: Step) {
    match step
    case Start => !s.started && !s.stopped
    case Execute(task) => s.started && task !in s.inFlight
    case CallTool(r) => r < |s.runs| && s.runs[r].outcome.None? && s.runs[r].tool.NotCalled?
    case ToolSettles(r) => r < |s.runs| && s.runs[r].tool.Active?
    case Forget(r) => r < |s.runs| && s.runs[r].tool.Settled? && Holds(s.active, s.runs[r].task, r)
    case RunSettles(r, ok) => r < |s.runs| && s.runs[r].outcome.None? && (ok ==> s.runs[r].tool.Settled?)
    case LeaveTask(r) => r < |s.runs| && s.runs[r].outcome.Some? && s.runs[r].leave.Inside?
    case LateRelease(r) =>
      r < |s.runs| && s.runs[r].leave.Waiting? && s.runs[r].leave.on < |s.runs| &&
      s.runs[s.runs[r].leave.on].tool.Settled? && !Holds(s.active, s.runs[r].task, s.runs[r].leave.on)
    case Stop(drainTimeoutMs) => s.shutdown.Running? && s.started && !s.stopped && ValidTimeout(drainTimeoutMs)
    case DrainEnds(timedOut) => s.shutdown.Draining? && (timedOut || s.shutdown.awaited <= s.resolved)
  }

  function SetRun(s: State, r: nat, run: Run): State
    requires r < |s.runs|
  {
    s.(runs := s.runs[r := run])
  }

  function Log(s: State, e: Event): State {
    s.(log := s.log + [e])
  }

  /** The task id is given back, unless its reservation is no longer this run's to give. */
  function Release(s: State, r: nat): State
    requires r < |s.runs|
  {
    var task := s.runs[r].task;
    var s1 := SetRun(s, r, s.runs[r].(leave := Gone));
    if Holds(s.promises, task, r) then
      s1.(inFlight := WithoutTask(s.inFlight, task), promises := s.promises - {task}, resolved := s.resolved + {r})
    else s1
  }

  function Leaving(s: State, r: nat): State
    requires r < |s.runs|
  {
    var task := s.runs[r].task;
    if task in s.active then SetRun(s, r, s.runs[r].(leave := Waiting(s.active[task]))) else Release(s, r)
  }

  /** With a drain, what is still reserved now is reported as stranded; then nothing is in flight any more. */
  function Finish(s: State, withDrain: bool): State {
    Log(s.(shutdown := Finished, inFlight := [], promises := map[]), Event.Stopped(if withDrain then s.inFlight else []))
  }

  function Stopping(s: State, drainTimeoutMs: Option<int>): State {
    var s1 := s.(stopped := true, started := false);
    if drainTimeoutMs.Some? && drainTimeoutMs.value > 0 then s1.(shutdown := Draining(s.promises.Values))
    else Finish(s1, drainTimeoutMs.Some?)
  }

  function Next(s: State, step: Step): State
    requires Enabled(s, step)
  {
    match step
    case Start => Log(s.(started := true), Started)
    case Execute(task) =>
      var r := |s.runs|;
      Log(s.(inFlight := s.inFlight + [task], promises := s.promises[task := r],
             runs := s.runs + [Run(task, None, NotCalled, Inside)]), Received(r))
    case CallTool(r) =>
      SetRun(s, r, s.runs[r].(tool := Active)).(active := s.active[s.runs[r].task := r])
    case ToolSettles(r) => SetRun(s, r, s.runs[r].(tool := Settled))
    case Forget(r) => s.(active := s.active - {s.runs[r].task})
    case RunSettles(r, ok) => Log(SetRun(s, r, s.runs[r].(outcome := Some(ok))), if ok then Completed(r) else Failed(r))
    case LeaveTask(r) => Leaving(s, r)
    case LateRelease(r) => Release(s, r)
    case Stop(drainTimeoutMs) => Stopping(s, drainTimeoutMs)
    case DrainEnds(_) => Finish(s, true)
  }

  const Init: State := State(false, false, Running, [], map[], {}, map[], [], [])

  /** These steps, one after the other, lead from `s` to `end`. */
  predicate Path(s: State, steps: seq<Step>, end: State)
    decreases |steps|
  {
    if steps == [] then s == end
    else Enabled(s, steps[0]) && Path(Next(s, steps[0]), steps[1..], end)
  }

  // ---------------------------------------------------------------------------------------
  // The invariant

  /** The reservations are those of runs that have not left. */
  ghost predicate ReservationsOk(s: State) {
    && NoRepeats(s.inFlight)
    && (forall task :: task in s.inFlight <==> task in s.promises)
    && (forall task :: task in s.promises ==>
          s.promises[task] < |s.runs| && s.runs[s.promises[task]].task == task && !s.runs[s.promises[task]].leave.Gone?)
    && (s.shutdown.Finished? ==> s.inFlight == [])
  }

  /** Until shutdown is finished every run that has not left holds its task id; no two ever share one. */
  predicate HoldersOk(s: State) {
    && (!s.shutdown.Finished? ==> forall r :: 0 <= r < |s.runs| && !s.runs[r].leave.Gone? ==> Holds(s.promises, s.runs[r].task, r))
    && (forall q, r :: 0 <= q < |s.runs| && 0 <= r < |s.runs| && !s.runs[q].leave.Gone? && !s.runs[r].leave.Gone? ==>
          s.runs[q].task == s.runs[r].task ==> q == r)
  }

  /** An active tool is in the runner's table, and a run in that table has not left. */
  predicate ActiveOk(s: State) {
    && (forall r :: 0 <= r < |s.runs| && s.runs[r].tool.Active? ==> Holds(s.active, s.runs[r].task, r))
    && (forall task :: task in s.active ==>
          s.active[task] < |s.runs| && s.runs[s.active[task]].task == task && !s.runs[s.active[task]].leave.Gone? &&
          !s.runs[s.active[task]].tool.NotCalled?)
  }

  /** A run completes after its tool has settled, and leaves once settled itself; if it waits, then for its own tool. */
  predicate LeavesOk(s: State) {
    forall r :: 0 <= r < |s.runs| ==>
      (s.runs[r].outcome == Some(true) ==> s.runs[r].tool.Settled?) &&
      (!s.runs[r].leave.Inside? ==> s.runs[r].outcome.Some?) &&
      (s.runs[r].leave.Waiting? ==> s.runs[r].leave.on == r && !s.runs[r].tool.NotCalled?)
  }

  /** A promise resolves when its run leaves; a drain waits for all that had not left when it began. */
  ghost predicate PromisesOk(s: State) {
    && (!s.shutdown.Finished? ==> forall r :: r in s.resolved <==> 0 <= r < |s.runs| && s.runs[r].leave.Gone?)
    && (s.shutdown.Draining? ==>
          (forall r :: r in s.shutdown.awaited ==> r < |s.runs|) &&
          (forall r :: 0 <= r < |s.runs| && !s.runs[r].leave.Gone? ==> r in s.shutdown.awaited))
  }

  ghost predicate EventsOk(s: State) {
    && (s.stopped <==> !s.shutdown.Running?) && !(s.started && s.stopped)
    && LogOk(s.log, s.runs, s.shutdown.Finished?)
    && (s.runs != [] ==> Started in s.log) && (s.started ==> Started in s.log)
    && Times(s.log, Started) == (if s.started || s.stopped then 1 else 0)
  }

  ghost predicate TablesOk(s: State) {
    ReservationsOk(s) && HoldersOk(s) && ActiveOk(s) && LeavesOk(s) && PromisesOk(s)
  }

  ghost predicate Inv(s: State) {
    TablesOk(s) && EventsOk(s)
  }

  // ---------------------------------------------------------------------------------------
  // Preservation

  lemma StartKeepsTables(s: State)
    requires TablesOk(s) && Enabled(s, Start)
    ensures TablesOk(Next(s, Start))
  {
  }

  lemma AcceptKeepsTables(s: State, task: string)
    requires TablesOk(s) && EventsOk(s) && Enabled(s, Execute(task))
    ensures TablesOk(Next(s, Execute(task)))
  {
    var s' := Next(s, Execute(task));
    assert forall r :: 0 <= r < |s.runs| ==> s'.runs[r] == s.runs[r];
  }

  lemma CallKeepsReservations(s: State, r: nat)
    requires TablesOk(s) && Enabled(s, CallTool(r))
    ensures ReservationsOk(Next(s, CallTool(r))) && HoldersOk(Next(s, CallTool(r))) && PromisesOk(Next(s, CallTool(r)))
  {
    var s' := Next(s, CallTool(r));
    assert forall x :: 0 <= x < |s.runs| ==> s'.runs[x].task == s.runs[x].task && s'.runs[x].leave == s.runs[x].leave;
  }

  /** No other run of this task id is in the runner's table with an active tool. */
  lemma CallKeepsActive(s: State, r: nat)
    requires HoldersOk(s) && ActiveOk(s) && LeavesOk(s) && Enabled(s, CallTool(r))
    ensures ActiveOk(Next(s, CallTool(r))) && LeavesOk(Next(s, CallTool(r)))
  {
  }

  lemma CallKeepsTables(s: State, r: nat)
    requires TablesOk(s) && Enabled(s, CallTool(r))
    ensures TablesOk(Next(s, CallTool(r)))
  {
    CallKeepsReservations(s, r);
    CallKeepsActive(s, r);
  }

  /** A run moves on inside: its tool settles, or its outcome is known. */
  lemma MoveKeepsTables(s: State, r: nat, run: Run)
    requires TablesOk(s) && r < |s.runs| && run.task == s.runs[r].task && run.leave == s.runs[r].leave
    requires s.runs[r].outcome.Some? ==> run.outcome.Some?
    requires run.outcome == Some(true) ==> run.tool.Settled?
    requires run.tool == s.runs[r].tool || (s.runs[r].tool.Active? && run.tool.Settled?)
    ensures TablesOk(SetRun(s, r, run))
  {
    var s' := SetRun(s, r, run);
    assert forall x :: 0 <= x < |s.runs| ==> s'.runs[x].task == s.runs[x].task && s'.runs[x].leave == s.runs[x].leave;
  }

  lemma LogKeepsTables(s: State, e: Event)
    requires TablesOk(s)
    ensures TablesOk(Log(s, e))
  {
  }

  lemma ForgetKeepsTables(s: State, r: nat)
    requires TablesOk(s) && Enabled(s, Forget(r))
    ensures TablesOk(Next(s, Forget(r)))
  {
  }

  lemma ToolKeepsTables(s: State, step: Step)
    requires TablesOk(s) && Enabled(s, step) && (step.ToolSettles? || step.RunSettles?)
    ensures TablesOk(Next(s, step))
  {
    var run := s.runs[step.run];
    if step.ToolSettles? {
      MoveKeepsTables(s, step.run, run.(tool := Settled));
    } else {
      MoveKeepsTables(s, step.run, run.(outcome := Some(step.ok)));
      LogKeepsTables(SetRun(s, step.run, run.(outcome := Some(step.ok))),
                     if step.ok then Completed(step.run) else Failed(step.run));
    }
  }

  lemma ReleaseKeepsReservations(s: State, r: nat)
    requires TablesOk(s) && r < |s.runs| && !s.runs[r].leave.Gone?
    ensures ReservationsOk(Release(s, r)) && HoldersOk(Release(s, r))
  {
  }

  lemma ReleaseKeepsPromises(s: State, r: nat)
    requires TablesOk(s) && r < |s.runs| && !s.runs[r].leave.Gone?
    ensures PromisesOk(Release(s, r))
  {
  }

  lemma ReleaseKeepsActive(s: State, r: nat)
    requires ActiveOk(s) && LeavesOk(s) && r < |s.runs| && s.runs[r].outcome.Some? && !Holds(s.active, s.runs[r].task, r)
    ensures ActiveOk(Release(s, r)) && LeavesOk(Release(s, r))
  {
  }

  lemma ReleaseKeepsTables(s: State, r: nat)
    requires TablesOk(s) && r < |s.runs| && s.runs[r].outcome.Some? && !s.runs[r].leave.Gone?
    requires !Holds(s.active, s.runs[r].task, r)
    ensures TablesOk(Release(s, r))
  {
    ReleaseKeepsReservations(s, r);
    ReleaseKeepsPromises(s, r);
    ReleaseKeepsActive(s, r);
  }

  /** The active execution that a leaving run finds under its task id is its own. */
  lemma WaitKeepsTables(s: State, r: nat)
    requires TablesOk(s) && Enabled(s, LeaveTask(r)) && s.runs[r].task in s.active
    ensures TablesOk(SetRun(s, r, s.runs[r].(leave := Waiting(s.active[s.runs[r].task]))))
  {
    assert s.active[s.runs[r].task] == r;
    var s' := SetRun(s, r, s.runs[r].(leave := Waiting(r)));
    assert forall x :: 0 <= x < |s.runs| ==> s'.runs[x].task == s.runs[x].task && s'.runs[x].leave.Gone? == s.runs[x].leave.Gone?;
  }

  lemma LeaveKeepsTables(s: State, r: nat)
    requires TablesOk(s) && Enabled(s, LeaveTask(r))
    ensures TablesOk(Next(s, LeaveTask(r)))
  {
    if s.runs[r].task !in s.active {
      ReleaseKeepsTables(s, r);
    } else {
      WaitKeepsTables(s, r);
    }
  }

  lemma FinishKeepsTables(s: State, withDrain: bool)
    requires TablesOk(s) && !s.shutdown.Finished?
    ensures TablesOk(Finish(s, withDrain))
  {
  }

  lemma DrainKeepsTables(s: State)
    requires TablesOk(s) && s.shutdown.Running?
    ensures TablesOk(s.(stopped := true, started := false, shutdown := Draining(s.promises.Values)))
  {
  }

  lemma StopKeepsTables(s: State, step: Step)
    requires TablesOk(s) && Enabled(s, step) && (step.Stop? || step.DrainEnds?)
    ensures TablesOk(Next(s, step))
  {
    if step.Stop? && step.drainTimeoutMs.Some? && step.drainTimeoutMs.value > 0 {
      DrainKeepsTables(s);
    } else if step.Stop? {
      var s1 := s.(stopped := true, started := false);
      assert TablesOk(s1);
      FinishKeepsTables(s1, step.drainTimeoutMs.Some?);
    } else {
      FinishKeepsTables(s, true);
    }
  }

  lemma StepKeepsTables(s: State, step: Step)
    requires Inv(s) && Enabled(s, step)
    ensures TablesOk(Next(s, step))
  {
    if step.Start? {
      StartKeepsTables(s);
    } else if step.Execute? {
      AcceptKeepsTables(s, step.task);
    } else if step.CallTool? {
      CallKeepsTables(s, step.run);
    } else if step.Forget? {
      ForgetKeepsTables(s, step.run);
    } else if step.ToolSettles? || step.RunSettles? {
      ToolKeepsTables(s, step);
    } else if step.LeaveTask? {
      LeaveKeepsTables(s, step.run);
    } else if step.LateRelease? {
      ReleaseKeepsTables(s, step.run);
    } else {
      StopKeepsTables(s, step);
    }
  }

  lemma ReceivedKeepsEvents(s: State, task: string)
    requires Inv(s) && Enabled(s, Execute(task))
    ensures EventsOk(Next(s, Execute(task)))
  {
    ReceivedKeepsLog(s.log, s.runs, s.shutdown.Finished?, Run(task, None, NotCalled, Inside));
    TimesPush(s.log, Received(|s.runs|));
  }

  lemma SettledKeepsEvents(s: State, r: nat, ok: bool)
    requires Inv(s) && Enabled(s, RunSettles(r, ok))
    ensures EventsOk(Next(s, RunSettles(r, ok)))
  {
    SettledKeepsLog(s.log, s.runs, s.shutdown.Finished?, r, ok);
    TimesPush(s.log, if ok then Completed(r) else Failed(r));
  }

  lemma StopKeepsEvents(s: State, step: Step)
    requires Inv(s) && Enabled(s, step) && (step.Start? || step.Stop? || step.DrainEnds?)
    ensures EventsOk(Next(s, step))
  {
    var s' := Next(s, step);
    if s'.log != s.log {
      var e := if step.Start? then Started else Event.Stopped(if step.Stop? && step.drainTimeoutMs.None? then [] else s.inFlight);
      assert s'.log == s.log + [e] && s'.runs == s.runs;
      OtherKeepsLog(s.log, s.runs, s.shutdown.Finished?, e);
      TimesPush(s.log, e);
    }
  }

  lemma QuietKeepsEvents(s: State, s': State)
    requires EventsOk(s) && |s'.runs| == |s.runs| && s'.log == s.log
    requires s'.started == s.started && s'.stopped == s.stopped && s'.shutdown == s.shutdown
    requires forall r :: 0 <= r < |s.runs| ==> s'.runs[r].outcome == s.runs[r].outcome
    ensures EventsOk(s')
  {
    SameOutcomesKeepLog(s.log, s.runs, s.shutdown.Finished?, s'.runs);
  }

  lemma StepKeepsEvents(s: State, step: Step)
    requires Inv(s) && Enabled(s, step)
    ensures EventsOk(Next(s, step))
  {
    if step.Execute? {
      ReceivedKeepsEvents(s, step.task);
    } else if step.RunSettles? {
      SettledKeepsEvents(s, step.run, step.ok);
    } else if step.Start? || step.Stop? || step.DrainEnds? {
      StopKeepsEvents(s, step);
    } else {
      QuietKeepsEvents(s, Next(s, step));
    }
  }

  lemma StepKeepsInv(s: State, step: Step)
    requires Inv(s) && Enabled(s, step)
    ensures Inv(Next(s, step))
  {
    StepKeepsTables(s, step);
    StepKeepsEvents(s, step);
  }

  lemma {:induction false} PathKeepsInv(s: State, steps: seq<Step>, end: State)
    requires Inv(s) && Path(s, steps, end)
    ensures Inv(end)
    decreases |steps|
  {
    if steps != [] {
      StepKeepsInv(s, steps[0]);
      PathKeepsInv(Next(s, steps[0]), steps[1..], end);
    }
  }

  lemma InitInv()
    ensures Inv(Init)
  {
  }

  ghost predicate Reachable(s: State) {
    exists steps :: Path(Init, steps, s)
  }

  lemma ReachableInv(s: State)
    requires Reachable(s)
    ensures Inv(s)
  {
    var steps :| Path(Init, steps, s);
    InitInv();
    PathKeepsInv(Init, steps, s);
  }

  // ---------------------------------------------------------------------------------------
  // What holds in every reachable state

  /** While a task's `run()` is under way or its tool is active, also long after a timeout, its id is not accepted again. */
  lemma ActiveTaskIsReserved(s: State, r: nat)
    requires Reachable(s) && r < |s.runs| && (s.runs[r].outcome.None? || s.runs[r].tool.Active?)
    ensures !s.shutdown.Finished? ==> s.runs[r].task in s.inFlight && Holds(s.promises, s.runs[r].task, r)
    ensures !Enabled(s, Execute(s.runs[r].task))
  {
    ReachableInv(s);
  }

  /** A reservation ends with the shutdown, or when its run leaves and its tool is not active. */
  lemma ReservationEndsOnlyAfterTool(s: State, step: Step, task: string)
    requires Reachable(s) && Enabled(s, step)
    requires task in s.inFlight && task !in Next(s, step).inFlight
    ensures Next(s, step).shutdown.Finished? ||
            exists r :: 0 <= r < |s.runs| && s.runs[r].task == task && s.runs[r].outcome.Some? && !s.runs[r].tool.Active? &&
                        (step == LeaveTask(r) || step == LateRelease(r))
  {
    ReachableInv(s);
  }

  /** A task id is in flight exactly while some run of it has not left, and two such runs never share one id. */
  lemma InFlightExactlyHeld(s: State, task: string)
    requires Reachable(s) && !s.shutdown.Finished?
    ensures task in s.inFlight <==> exists r :: 0 <= r < |s.runs| && s.runs[r].task == task && !s.runs[r].leave.Gone?
    ensures forall q, r :: 0 <= q < r < |s.runs| && !s.runs[q].leave.Gone? && !s.runs[r].leave.Gone? ==>
              s.runs[q].task != s.runs[r].task
  {
    ReachableInv(s);
    if task in s.inFlight {
      var r := s.promises[task];
      assert s.runs[r].task == task;
    }
  }

  /** Every accepted task was announced once; it was reported completed or failed once if it has settled, else not yet. */
  lemma ToldExactlyOnce(s: State, r: nat)
    requires Reachable(s) && r < |s.runs|
    ensures Times(s.log, Received(r)) == 1
    ensures Times(s.log, Completed(r)) + Times(s.log, Failed(r)) == if s.runs[r].outcome.Some? then 1 else 0
    ensures forall k :: 0 <= k < |s.log| && s.log[k] in [Completed(r), Failed(r)] ==> Received(r) in s.log[..k]
  {
    ReachableInv(s);
    assert Told(s.log, s.runs, r);
    var outcome := s.runs[r].outcome;
    assert outcome.Some? ==> outcome == Some(outcome.value) && (outcome.value == true || outcome.value == false);
  }

  /** A task is reported completed only after its tool has settled. */
  lemma CompletedOnlyAfterTool(s: State, r: nat)
    requires Reachable(s) && Completed(r) in s.log
    ensures r < |s.runs| && s.runs[r].outcome == Some(true) && s.runs[r].tool.Settled?
  {
    ReachableInv(s);
    assert Told(s.log, s.runs, r);
    assert Completed(r) in multiset(s.log);
  }

  /** The runtime can be started exactly until it has been. */
  lemma StartsExactlyOnce(s: State)
    requires Reachable(s)
    ensures Enabled(s, Start) <==> Started !in s.log
    ensures Enabled(s, Start) ==> Next(s, Start) == s.(started := true, log := s.log + [Started])
    ensures Reachable(Init) && Enabled(Init, Start)
  {
    ReachableInv(s);
    assert Started in s.log <==> Started in multiset(s.log);
    assert Path(Init, [], Init);
  }

  /** The runtime starts at most once and publishes at most one stopped event, which ends its reservations. */
  lemma StopsOnce(s: State)
    requires Reachable(s)
    ensures Times(s.log, Started) <= 1 && (s.runs != [] ==> Times(s.log, Started) == 1)
    ensures forall j, k :: 0 <= j < k < |s.log| ==> !(s.log[j].Stopped? && s.log[k].Stopped?)
    ensures (exists k :: 0 <= k < |s.log| && s.log[k].Stopped?) ==> s.inFlight == [] && forall task :: !Enabled(s, Execute(task))
  {
    ReachableInv(s);
  }

  /** A drain ends of itself exactly when nothing is in flight any more; so only the timer strands tasks. */
  lemma DrainEndsExactlyWhenGivenBack(s: State)
    requires Reachable(s) && s.shutdown.Draining?
    ensures Enabled(s, DrainEnds(false)) <==> s.inFlight == []
    ensures Enabled(s, DrainEnds(false)) <==> forall r :: 0 <= r < |s.runs| ==> s.runs[r].leave.Gone?
  {
    ReachableInv(s);
    if s.inFlight == [] {
      assert s.shutdown.awaited <= s.resolved;
    } else {
      var task := s.inFlight[0];
      assert task in s.promises;
      assert s.promises[task] in s.shutdown.awaited && s.promises[task] !in s.resolved;
    }
  }

  // ---------------------------------------------------------------------------------------
  // What the stopped event reports

  /** Some run of this task has not left. */
  predicate Held(s: State, task: string) {
    exists r :: 0 <= r < |s.runs| && s.runs[r].task == task && !s.runs[r].leave.Gone?
  }

  /** These are the held task ids, each once. */
  ghost predicate ListsHeld(s: State, ids: seq<string>) {
    NoRepeats(ids) && forall task :: task in ids <==> Held(s, task)
  }

  /** The end of a drain publishes one stopped event, with exactly the ids still held. */
  lemma DrainReportsStranded(s: State, timedOut: bool)
    requires Reachable(s) && Enabled(s, DrainEnds(timedOut))
    ensures var s' := Next(s, DrainEnds(timedOut));
            && s'.inFlight == [] && s'.shutdown.Finished?
            && exists ids :: s'.log == s.log + [Event.Stopped(ids)] && ListsHeld(s, ids)
  {
    InFlightIsHeld(s);
    assert ListsHeld(s, s.inFlight);
  }

  lemma InFlightIsHeld(s: State)
    requires Reachable(s) && !s.shutdown.Finished?
    ensures ListsHeld(s, s.inFlight)
  {
    ReachableInv(s);
    forall task ensures task in s.inFlight <==> Held(s, task) {
      InFlightExactlyHeld(s, task);
    }
  }

  /** A stop without a drain reports nothing; one with no time to drain reports what is held; else it waits. */
  lemma StopReports(s: State, drainTimeoutMs: Option<int>)
    requires Reachable(s) && Enabled(s, Stop(drainTimeoutMs))
    ensures var s' := Next(s, Stop(drainTimeoutMs));
            && s'.stopped && !s'.started && s'.runs == s.runs
            && (drainTimeoutMs == None ==> s'.shutdown.Finished? && s'.inFlight == [] && s'.log == s.log + [Event.Stopped([])])
            && (drainTimeoutMs == Some(0) ==>
                  s'.shutdown.Finished? && s'.inFlight == [] &&
                  exists ids :: s'.log == s.log + [Event.Stopped(ids)] && ListsHeld(s, ids))
            && (drainTimeoutMs.Some? && drainTimeoutMs.value > 0 ==>
                  s'.shutdown.Draining? && s'.inFlight == s.inFlight && s'.log == s.log)
  {
    ReachableInv(s);
    InFlightIsHeld(s);
    assert ListsHeld(s, s.inFlight);
  }

  /** A stop begins exactly while the runtime is started, with no timeout or one that a timer can take. */
  lemma StopBeginsExactly(s: State, drainTimeoutMs: Option<int>)
    requires Reachable(s)
    ensures Enabled(s, Stop(drainTimeoutMs)) <==>
            s.started && (drainTimeoutMs == None || 0 <= drainTimeoutMs.value <= 2_147_483_647)
  {
    ReachableInv(s);
  }

  lemma {:induction false} LastStep(s: State, steps: seq<Step>, end: State) returns (mid: State)
    requires steps != [] && Path(s, steps, end)
    ensures Path(s, steps[..|steps| - 1], mid) && Enabled(mid, steps[|steps| - 1]) && Next(mid, steps[|steps| - 1]) == end
    decreases |steps|
  {
    if |steps| == 1 {
      mid := s;
    } else {
      mid := LastStep(Next(s, steps[0]), steps[1..], end);
      var front := steps[..|steps| - 1];
      assert front[1..] == steps[1..][..|steps| - 2];
    }
  }

  /** In this state this step finishes the shutdown, and reports these ids. */
  ghost predicate Reports(mid: State, step: Step, ids: seq<string>) {
    && Reachable(mid) && Enabled(mid, step) && !mid.shutdown.Finished? && Next(mid, step).shutdown.Finished?
    && (if step == Stop(None) then ids == [] else ListsHeld(mid, ids))
  }

  lemma StepsLog(s: State, step: Step)
    requires Reachable(s) && Enabled(s, step)
    ensures var s' := Next(s, step);
            && |s.log| <= |s'.log| <= |s.log| + 1 && s'.log[..|s.log|] == s.log
            && (|s'.log| > |s.log| && s'.log[|s.log|].Stopped? ==> Reports(s, step, s'.log[|s.log|].stranded))
  {
    ReachableInv(s);
    if step.DrainEnds? {
      DrainReportsStranded(s, step.timedOut);
    } else if step.Stop? {
      StopReports(s, step.drainTimeoutMs);
    }
  }

  /** After the first `i` steps the log says this; the next step finishes the shutdown and reports these ids. */
  ghost predicate FinishedAt(steps: seq<Step>, i: nat, mid: State, log: seq<Event>, ids: seq<string>) {
    i < |steps| && Path(Init, steps[..i], mid) && mid.log == log && Reports(mid, steps[i], ids)
  }

  lemma FinishedBefore(steps: seq<Step>, n: nat, i: nat, mid: State, log: seq<Event>, ids: seq<string>)
    requires n <= |steps| && FinishedAt(steps[..n], i, mid, log, ids)
    ensures FinishedAt(steps, i, mid, log, ids)
  {
    assert steps[..n][..i] == steps[..i] && steps[..n][i] == steps[i];
  }

  /**
    Over a whole run: the stopped event lists exactly the ids whose runs had not left at the step that
    finished the shutdown, or none if the stop asked for no drain.
  */
  lemma {:induction false} StoppedEventIsExact(steps: seq<Step>, end: State, k: nat)
    requires Path(Init, steps, end) && k < |end.log| && end.log[k].Stopped?
    ensures exists mid, i :: FinishedAt(steps, i, mid, end.log[..k], end.log[k].stranded)
    decreases |steps|
  {
    var n := |steps| - 1;
    var last := LastStep(Init, steps, end);
    assert Reachable(last);
    StepsLog(last, steps[n]);
    if k < |last.log| {
      assert last.log[k] == end.log[k] && last.log[..k] == end.log[..k];
      StoppedEventIsExact(steps[..n], last, k);
      var mid, i :| FinishedAt(steps[..n], i, mid, last.log[..k], last.log[k].stranded);
      FinishedBefore(steps, n, i, mid, last.log[..k], last.log[k].stranded);
    } else {
      assert last.log == end.log[..k];
      assert FinishedAt(steps, n, last, end.log[..k], end.log[k].stranded);
    }
  }

  // ---------------------------------------------------------------------------------------
  // No reservation leaks: every run can leave, and then a drain can end of itself

  /** What the run does next on its own way out. */
  function WayOut(s: State, r: nat): Step
    requires r < |s.runs|
  {
    if s.runs[r].outcome.None? then RunSettles(r, false)
    else if s.runs[r].leave.Inside? then LeaveTask(r)
    else if s.runs[r].tool.Active? then ToolSettles(r)
    else if Holds(s.active, s.runs[r].task, r) then Forget(r)
    else LateRelease(r)
  }

  function StepsOut(s: State, r: nat): nat
    requires r < |s.runs|
  {
    (if s.runs[r].outcome.None? then 16 else 0) + (if s.runs[r].leave.Inside? then 8 else 0) +
    (if s.runs[r].tool.Active? then 4 else 0) + (if Holds(s.active, s.runs[r].task, r) then 2 else 0) +
    (if s.runs[r].leave.Gone? then 0 else 1)
  }

  /** Only this run has come further. */
  predicate OnlyRun(s: State, s': State, r: nat) {
    && |s'.runs| == |s.runs| && s'.shutdown == s.shutdown
    && forall x :: 0 <= x < |s.runs| && x != r ==> s'.runs[x] == s.runs[x]
  }

  lemma WayOutIsOpen(s: State, r: nat)
    requires Inv(s) && r < |s.runs| && !s.runs[r].leave.Gone?
    ensures Enabled(s, WayOut(s, r))
  {
  }

  lemma ReleaseLeads(s: State, r: nat)
    requires r < |s.runs| && s.runs[r].outcome.Some? && s.runs[r].leave.Waiting?
    ensures OnlyRun(s, Release(s, r), r) && StepsOut(Release(s, r), r) < StepsOut(s, r)
  {
  }

  lemma LeavingLeads(s: State, r: nat)
    requires r < |s.runs| && s.runs[r].outcome.Some? && s.runs[r].leave.Inside?
    ensures OnlyRun(s, Leaving(s, r), r) && StepsOut(Leaving(s, r), r) < StepsOut(s, r)
  {
  }

  lemma WayOutLeads(s: State, r: nat)
    requires r < |s.runs| && Enabled(s, WayOut(s, r))
    ensures var s' := Next(s, WayOut(s, r)); OnlyRun(s, s', r) && StepsOut(s', r) < StepsOut(s, r)
  {
    if WayOut(s, r).LeaveTask? {
      LeavingLeads(s, r);
    } else if WayOut(s, r).LateRelease? {
      ReleaseLeads(s, r);
    } else {
      SettlingLeads(s, r);
    }
  }

  lemma SettlingLeads(s: State, r: nat)
    requires r < |s.runs| && Enabled(s, WayOut(s, r)) && !WayOut(s, r).LeaveTask? && !WayOut(s, r).LateRelease?
    ensures var s' := Next(s, WayOut(s, r)); OnlyRun(s, s', r) && StepsOut(s', r) < StepsOut(s, r)
  {
  }

  lemma {:induction false} RunCanLeave(s: State, r: nat) returns (steps: seq<Step>, end: State)
    requires Inv(s) && r < |s.runs|
    ensures Path(s, steps, end) && OnlyRun(s, end, r) && end.runs[r].leave.Gone?
    decreases StepsOut(s, r)
  {
    if s.runs[r].leave.Gone? {
      steps, end := [], s;
    } else {
      WayOutIsOpen(s, r);
      WayOutLeads(s, r);
      var step := WayOut(s, r);
      StepKeepsInv(s, step);
      var rest;
      rest, end := RunCanLeave(Next(s, step), r);
      steps := [step] + rest;
      assert steps[1..] == rest;
    }
  }

  lemma {:induction false} PathTrans(s: State, steps: seq<Step>, mid: State, more: seq<Step>, end: State)
    requires Path(s, steps, mid) && Path(mid, more, end)
    ensures Path(s, steps + more, end)
    decreases |steps|
  {
    if steps == [] {
      assert steps + more == more;
    } else {
      PathTrans(Next(s, steps[0]), steps[1..], mid, more, end);
      assert (steps + more)[1..] == steps[1..] + more;
    }
  }

  lemma {:induction false} AllCanLeave(s: State, n: nat) returns (steps: seq<Step>, end: State)
    requires Inv(s) && n <= |s.runs|
    ensures Path(s, steps, end) && |end.runs| == |s.runs| && end.shutdown == s.shutdown
    ensures forall r :: 0 <= r < n ==> end.runs[r].leave.Gone?
  {
    if n == 0 {
      steps, end := [], s;
    } else {
      var first, mid := AllCanLeave(s, n - 1);
      PathKeepsInv(s, first, mid);
      var more;
      more, end := RunCanLeave(mid, n - 1);
      PathTrans(s, first, mid, more, end);
      steps := first + more;
    }
  }

  /** A drain never has to strand a task: once tools and runs settle, it can end of itself, stranding nothing. */
  lemma DrainCanSucceed(s: State) returns (steps: seq<Step>, end: State)
    requires Reachable(s) && s.shutdown.Draining?
    ensures Path(s, steps, end) && Enabled(end, DrainEnds(false))
    ensures Next(end, DrainEnds(false)).log == end.log + [Event.Stopped([])]
  {
    ReachableInv(s);
    steps, end := AllCanLeave(s, |s.runs|);
    var before :| Path(Init, before, s);
    PathTrans(Init, before, s, steps, end);
    DrainEndsExactlyWhenGivenBack(end);
  }

  // ---------------------------------------------------------------------------------------
  // The course of one task

  lemma PathStep(s: State, step: Step, steps: seq<Step>, end: State)
    requires Enabled(s, step) && Path(Next(s, step), steps, end)
    ensures Path(s, [step] + steps, end)
  {
    assert ([step] + steps)[1..] == steps;
  }

  lemma {:induction false} WithoutLast(s: seq<string>, task: string)
    requires task !in s
    ensures WithoutTask(s + [task], task) == s
  {
    if s != [] {
      WithoutLast(s[1..], task);
      assert (s + [task])[1..] == s[1..] + [task];
    } else {
      assert [task][1..] == [];
    }
  }

  /** The run is over and its id given back; nothing else has changed but the log. */
  function Over(s: State, task: string, ok: bool): State {
    var r := |s.runs|;
    s.(runs := s.runs + [Run(task, Some(ok), Settled, Gone)], resolved := s.resolved + {r},
       log := s.log + [Received(r), if ok then Completed(r) else Failed(r)])
  }

  /** The newest run with its tool's table entry gone: what is left to do is to give the id back. */
  lemma GivesBack(s: State, task: string, ok: bool, leave: Leave)
    requires IsFree(s, task)
    ensures var r := |s.runs|;
            var mid := s.(inFlight := s.inFlight + [task], promises := s.promises[task := r],
                          runs := s.runs + [Run(task, Some(ok), Settled, leave)],
                          log := s.log + [Received(r), if ok then Completed(r) else Failed(r)]);
            Release(mid, r) == Over(s, task, ok)
  {
    var r := |s.runs|;
    WithoutLast(s.inFlight, task);
    assert s.promises[task := r] - {task} == s.promises;
    assert (s.runs + [Run(task, Some(ok), Settled, leave)])[r := Run(task, Some(ok), Settled, Gone)] ==
           s.runs + [Run(task, Some(ok), Settled, Gone)];
  }

  /** The states between: the newest run with its tool, its outcome and where it is on the way out. */
  function During(s: State, task: string, active: bool, run: Run, events: seq<Event>): State {
    var r := |s.runs|;
    s.(inFlight := s.inFlight + [task], promises := s.promises[task := r],
       active := if active then s.active[task := r] else s.active, runs := s.runs + [run], log := s.log + events)
  }

  lemma Accepts(s: State, task: string)
    requires s.started && task !in s.inFlight
    ensures var r := |s.runs|;
            Enabled(s, Execute(task)) &&
            Next(s, Execute(task)) == During(s, task, false, Run(task, None, NotCalled, Inside), [Received(r)])
  {
  }

  lemma Calls(s: State, task: string)
    ensures var r := |s.runs|;
            var s1 := During(s, task, false, Run(task, None, NotCalled, Inside), [Received(r)]);
            Enabled(s1, CallTool(r)) && Next(s1, CallTool(r)) == During(s, task, true, Run(task, None, Active, Inside), [Received(r)])
  {
    var r := |s.runs|;
    assert (s.runs + [Run(task, None, NotCalled, Inside)])[r := Run(task, None, Active, Inside)] == s.runs + [Run(task, None, Active, Inside)];
  }

  lemma SettlesTool(s: State, task: string, outcome: Option<bool>, leave: Leave, events: seq<Event>)
    ensures var r := |s.runs|;
            var s1 := During(s, task, true, Run(task, outcome, Active, leave), events);
            Enabled(s1, ToolSettles(r)) && Next(s1, ToolSettles(r)) == During(s, task, true, Run(task, outcome, Settled, leave), events)
  {
    var r := |s.runs|;
    assert (s.runs + [Run(task, outcome, Active, leave)])[r := Run(task, outcome, Settled, leave)] == s.runs + [Run(task, outcome, Settled, leave)];
  }

  lemma Forgets(s: State, task: string, outcome: Option<bool>, leave: Leave, events: seq<Event>)
    requires task !in s.active
    ensures var r := |s.runs|;
            var s1 := During(s, task, true, Run(task, outcome, Settled, leave), events);
            Enabled(s1, Forget(r)) && Next(s1, Forget(r)) == During(s, task, false, Run(task, outcome, Settled, leave), events)
  {
    var r := |s.runs|;
    assert s.active[task := r] - {task} == s.active;
  }

  lemma SettlesRun(s: State, task: string, active: bool, tool: Tool, ok: bool)
    requires ok ==> tool.Settled?
    ensures var r := |s.runs|;
            var s1 := During(s, task, active, Run(task, None, tool, Inside), [Received(r)]);
            Enabled(s1, RunSettles(r, ok)) &&
            Next(s1, RunSettles(r, ok)) ==
              During(s, task, active, Run(task, Some(ok), tool, Inside), [Received(r), if ok then Completed(r) else Failed(r)])
  {
    var r := |s.runs|;
    assert (s.runs + [Run(task, None, tool, Inside)])[r := Run(task, Some(ok), tool, Inside)] == s.runs + [Run(task, Some(ok), tool, Inside)];
    assert s.log + [Received(r)] + [if ok then Completed(r) else Failed(r)] == s.log + [Received(r), if ok then Completed(r) else Failed(r)];
  }

  function CompletionSteps(r: nat, task: string, ok: bool): seq<Step> {
    [Execute(task)] + ([CallTool(r)] + ([ToolSettles(r)] + ([Forget(r)] + ([RunSettles(r, ok)] + ([LeaveTask(r)] + [])))))
  }

  function TimeoutSteps(r: nat, task: string): seq<Step> {
    [Execute(task)] + ([CallTool(r)] + ([RunSettles(r, false)] + ([LeaveTask(r)] + ([ToolSettles(r)] + ([Forget(r)] + ([LateRelease(r)] + []))))))
  }

  predicate IsFree(s: State, task: string) {
    task !in s.inFlight && task !in s.promises && task !in s.active
  }

  lemma FreeIsFree(s: State, task: string)
    requires Reachable(s) && s.started && task !in s.inFlight
    ensures IsFree(s, task)
  {
    ReachableInv(s);
  }

  lemma CompletionEnds(s: State, task: string, ok: bool)
    requires IsFree(s, task)
    ensures var r := |s.runs|;
            Path(During(s, task, false, Run(task, None, Settled, Inside), [Received(r)]),
                 [RunSettles(r, ok)] + ([LeaveTask(r)] + []), Over(s, task, ok))
  {
    var r := |s.runs|;
    var s4 := During(s, task, false, Run(task, None, Settled, Inside), [Received(r)]);
    var s5 := During(s, task, false, Run(task, Some(ok), Settled, Inside), [Received(r), if ok then Completed(r) else Failed(r)]);
    var end := Over(s, task, ok);
    GivesBack(s, task, ok, Inside);
    assert Path(end, [], end);
    PathStep(s5, LeaveTask(r), [], end);
    SettlesRun(s, task, false, Settled, ok);
    PathStep(s4, RunSettles(r, ok), [LeaveTask(r)] + [], end);
  }

  /** A task whose id is free runs to its end: it is announced, reported as it settled, and its id is free again. */
  lemma TaskCompletes(s: State, task: string, ok: bool)
    requires Reachable(s) && s.started && task !in s.inFlight
    ensures Path(s, CompletionSteps(|s.runs|, task, ok), Over(s, task, ok))
  {
    var r := |s.runs|;
    var s1 := During(s, task, false, Run(task, None, NotCalled, Inside), [Received(r)]);
    var s2 := During(s, task, true, Run(task, None, Active, Inside), [Received(r)]);
    var s3 := During(s, task, true, Run(task, None, Settled, Inside), [Received(r)]);
    var end, rest := Over(s, task, ok), [RunSettles(r, ok)] + ([LeaveTask(r)] + []);
    FreeIsFree(s, task);
    CompletionEnds(s, task, ok);
    Forgets(s, task, None, Inside, [Received(r)]);
    PathStep(s3, Forget(r), rest, end);
    SettlesTool(s, task, None, Inside, [Received(r)]);
    PathStep(s2, ToolSettles(r), [Forget(r)] + rest, end);
    Calls(s, task);
    PathStep(s1, CallTool(r), [ToolSettles(r)] + ([Forget(r)] + rest), end);
    Accepts(s, task);
    PathStep(s, Execute(task), [CallTool(r)] + ([ToolSettles(r)] + ([Forget(r)] + rest)), end);
  }

  lemma Waits(s: State, task: string)
    ensures var r := |s.runs|;
            var s1 := During(s, task, true, Run(task, Some(false), Active, Inside), [Received(r), Failed(r)]);
            Enabled(s1, LeaveTask(r)) &&
            Next(s1, LeaveTask(r)) == During(s, task, true, Run(task, Some(false), Active, Waiting(r)), [Received(r), Failed(r)])
  {
    var r := |s.runs|;
    assert (s.runs + [Run(task, Some(false), Active, Inside)])[r := Run(task, Some(false), Active, Waiting(r))] ==
           s.runs + [Run(task, Some(false), Active, Waiting(r))];
  }

  lemma TimeoutEnds(s: State, task: string)
    requires IsFree(s, task)
    ensures var r := |s.runs|;
            Path(During(s, task, true, Run(task, Some(false), Active, Waiting(r)), [Received(r), Failed(r)]),
                 [ToolSettles(r)] + ([Forget(r)] + ([LateRelease(r)] + [])), Over(s, task, false))
  {
    var r := |s.runs|;
    var told := [Received(r), Failed(r)];
    var s4 := During(s, task, true, Run(task, Some(false), Active, Waiting(r)), told);
    var s5 := During(s, task, true, Run(task, Some(false), Settled, Waiting(r)), told);
    var s6 := During(s, task, false, Run(task, Some(false), Settled, Waiting(r)), told);
    var end := Over(s, task, false);
    GivesBack(s, task, false, Waiting(r));
    assert Path(end, [], end);
    PathStep(s6, LateRelease(r), [], end);
    Forgets(s, task, Some(false), Waiting(r), told);
    PathStep(s5, Forget(r), [LateRelease(r)] + [], end);
    SettlesTool(s, task, Some(false), Waiting(r), told);
    PathStep(s4, ToolSettles(r), [Forget(r)] + ([LateRelease(r)] + []), end);
  }

  /** A task that times out is reported failed at once, and its id comes free once its tool has settled. */
  lemma TimedOutTaskIsGivenBackLate(s: State, task: string)
    requires Reachable(s) && s.started && task !in s.inFlight
    ensures Path(s, TimeoutSteps(|s.runs|, task), Over(s, task, false))
  {
    var r := |s.runs|;
    var s1 := During(s, task, false, Run(task, None, NotCalled, Inside), [Received(r)]);
    var s2 := During(s, task, true, Run(task, None, Active, Inside), [Received(r)]);
    var s3 := During(s, task, true, Run(task, Some(false), Active, Inside), [Received(r), Failed(r)]);
    var end, rest := Over(s, task, false), [ToolSettles(r)] + ([Forget(r)] + ([LateRelease(r)] + []));
    FreeIsFree(s, task);
    TimeoutEnds(s, task);
    Waits(s, task);
    PathStep(s3, LeaveTask(r), rest, end);
    SettlesRun(s, task, true, Active, false);
    PathStep(s2, RunSettles(r, false), [LeaveTask(r)] + rest, end);
    Calls(s, task);
    PathStep(s1, CallTool(r), [RunSettles(r, false)] + ([LeaveTask(r)] + rest), end);
    Accepts(s, task);
    PathStep(s, Execute(task), [CallTool(r)] + ([RunSettles(r, false)] + ([LeaveTask(r)] + rest)), end);
  }

  // ---------------------------------------------------------------------------------------
  // The runtime's fields

  datatype StopResult = Joined | NotRunning | BadTimeout | Begun

  class AgentRuntime {
    var started: bool
    var stopped: bool
    var shutdown: Shutdown
    var inFlightTasks: seq<string>
    /** The promise of every reserved id; a promise is told from others by the number of its run. */
    var inFlightPromises: map<string, nat>
    var promises: nat
    var resolved: set<nat>
    /** The runner's table. */
    var activeExecutions: map<string, nat>
    ghost var runs: seq<Run>
    ghost var log: seq<Event>

    ghost function Abstract(): State
      reads this
    {
      State(started, stopped, shutdown, inFlightTasks, inFlightPromises, resolved, activeExecutions, runs, log)
    }

    ghost predicate Valid()
      reads this
    {
      Inv(Abstract()) && promises == |runs|
    }

    constructor ()
      ensures Valid() && Abstract() == Init
    {
      started, stopped, shutdown, inFlightTasks, inFlightPromises := false, false, Running, [], map[];
      promises, resolved, activeExecutions, runs, log := 0, {}, map[], [], [];
      new;
      InitInv();
    }

    /** Starting works once. */
    method Start() returns (ok: bool)
      requires Valid()
      modifies this
      ensures Valid() && ok == Enabled(old(Abstract()), Step.Start)
      ensures Abstract() == if ok then Next(old(Abstract()), Step.Start) else old(Abstract())
    {
      if started || stopped {
        return false;
      }
      StepKeepsInv(Abstract(), Step.Start);
      started := true;
      log := log + [Started];
      return true;
    }

    /** executeTask up to the received event: the id is reserved before anyone hears of the task. */
    method Accept(task: string) returns (run: Option<nat>)
      requires Valid()
      modifies this
      ensures Valid() && run == if Enabled(old(Abstract()), Execute(task)) then Some(|old(runs)|) else None
      ensures Abstract() == if run.Some? then Next(old(Abstract()), Execute(task)) else old(Abstract())
    {
      if !started || task in inFlightTasks {
        return None;
      }
      ghost var after := Next(Abstract(), Execute(task));
      StepKeepsInv(Abstract(), Execute(task));
      var promise := promises;
      promises := promises + 1;
      inFlightTasks := inFlightTasks + [task];
      inFlightPromises := inFlightPromises[task := promise];
      runs := runs + [Run(task, None, NotCalled, Inside)];
      log := log + [Received(promise)];
      assert Abstract() == after;
      return Some(promise);
    }

    /** The runner calls the tool and enters it into its table (src/tasks/task-runner.ts:342-353). */
    method CallTool(run: nat, task: string)
      requires Valid() && Enabled(Abstract(), Step.CallTool(run)) && runs[run].task == task
      modifies this
      ensures Valid() && Abstract() == Next(old(Abstract()), Step.CallTool(run))
    {
      StepKeepsInv(Abstract(), Step.CallTool(run));
      runs := runs[run := runs[run].(tool := Active)];
      activeExecutions := activeExecutions[task := run];
    }

    /** The tool has settled: its entry goes, if it is still there and still its own. */
    method ForgetTool(run: nat, task: string)
      requires Valid() && run < |runs| && runs[run].task == task && runs[run].tool.Settled?
      modifies this
      ensures Valid()
      ensures Abstract() == if Enabled(old(Abstract()), Forget(run)) then Next(old(Abstract()), Forget(run)) else old(Abstract())
    {
      if task in activeExecutions && activeExecutions[task] == run {
        StepKeepsInv(Abstract(), Forget(run));
        activeExecutions := activeExecutions - {task};
      }
    }

    /** `run()` settles: the completed or failed event, also after the runtime has stopped. */
    method Settle(run: nat, ok: bool)
      requires Valid() && Enabled(Abstract(), RunSettles(run, ok))
      modifies this
      ensures Valid() && Abstract() == Next(old(Abstract()), RunSettles(run, ok))
    {
      StepKeepsInv(Abstract(), RunSettles(run, ok));
      runs := runs[run := runs[run].(outcome := Some(ok))];
      log := log + [if ok then Completed(run) else Failed(run)];
    }

    /** The finally block: without an active execution the id is given back at once, otherwise when it settles. */
    method Leave(run: nat, task: string)
      requires Valid() && Enabled(Abstract(), LeaveTask(run)) && runs[run].task == task
      modifies this
      ensures Valid() && Abstract() == Next(old(Abstract()), LeaveTask(run))
    {
      StepKeepsInv(Abstract(), LeaveTask(run));
      if task !in activeExecutions {
        ReleaseTask(run, task);
      } else {
        runs := runs[run := runs[run].(leave := Waiting(activeExecutions[task]))];
      }
    }

    /** The callback on the active execution. */
    method LeaveLate(run: nat, task: string)
      requires Valid() && Enabled(Abstract(), LateRelease(run)) && runs[run].task == task
      modifies this
      ensures Valid() && Abstract() == Next(old(Abstract()), LateRelease(run))
    {
      StepKeepsInv(Abstract(), LateRelease(run));
      ReleaseTask(run, task);
    }

    /** Gives a task id back, unless its reservation is no longer this run's. */
    method ReleaseTask(run: nat, task: string)
      requires run < |runs| && runs[run].task == task
      modifies this
      ensures Abstract() == Release(old(Abstract()), run) && promises == old(promises)
    {
      if task in inFlightPromises && inFlightPromises[task] == run {
        inFlightTasks := WithoutTask(inFlightTasks, task);
        inFlightPromises := inFlightPromises - {task};
        resolved := resolved + {run};
      }
      runs := runs[run := runs[run].(leave := Gone)];
    }

    /** Stopping begins once; with a positive drain timeout it goes on in DrainEnds, otherwise at once. */
    method Stop(drainTimeoutMs: Option<int>) returns (r: StopResult)
      requires Valid()
      modifies this
      ensures Valid() && (r.Begun? <==> Enabled(old(Abstract()), Step.Stop(drainTimeoutMs)))
      ensures r.Joined? <==> old(stopped)
      ensures r.NotRunning? <==> !old(stopped) && !old(started)
      ensures Abstract() == if r.Begun? then Next(old(Abstract()), Step.Stop(drainTimeoutMs)) else old(Abstract())
    {
      if !shutdown.Running? {
        return Joined;
      }
      if !started || stopped {
        return NotRunning;
      }
      if drainTimeoutMs.Some? && !(0 <= drainTimeoutMs.value <= MAX_TIMER_DELAY_MS) {
        return BadTimeout;
      }
      StepKeepsInv(Abstract(), Step.Stop(drainTimeoutMs));
      stopped, started := true, false;
      if drainTimeoutMs.Some? && drainTimeoutMs.value > 0 {
        shutdown := Draining(inFlightPromises.Values);
      } else {
        FinishStop(drainTimeoutMs.Some?);
      }
      return Begun;
    }

    /** The timer fires, or every promise that was there when the drain began has resolved. */
    method DrainEnds(timedOut: bool)
      requires Valid() && Enabled(Abstract(), Step.DrainEnds(timedOut))
      modifies this
      ensures Valid() && Abstract() == Next(old(Abstract()), Step.DrainEnds(timedOut))
    {
      StepKeepsInv(Abstract(), Step.DrainEnds(timedOut));
      FinishStop(true);
    }

    method FinishStop(withDrain: bool)
      modifies this
      ensures Abstract() == Finish(old(Abstract()), withDrain) && promises == old(promises)
    {
      var stranded := if withDrain && |inFlightTasks| > 0 then inFlightTasks else [];
      inFlightTasks, inFlightPromises := [], map[];
      log := log + [Event.Stopped(stranded)];
      shutdown := Finished;
    }

    /** reconcileUnknownOutcome is refused while the id is reserved or its tool is active. */
    method MayReconcile(task: string) returns (ok: bool)
      requires Valid()
      ensures ok <==> started && forall r :: 0 <= r < |runs| && runs[r].task == task ==> runs[r].leave.Gone?
      ensures ok ==> forall r :: 0 <= r < |runs| && runs[r].task == task ==> !runs[r].tool.Active?
    {
      if task in inFlightTasks {
        assert runs[inFlightPromises[task]].task == task;
      }
      if task in activeExecutions {
        assert runs[activeExecutions[task]].task == task;
      }
      return started && task !in inFlightTasks && task !in activeExecutions;
    }
  }
}
