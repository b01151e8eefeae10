/**
  How an invocation ends: for each outcome the steps that follow it and the exact state they leave.

  A task whose result was persisted, or whose tool was rejected in time, is free again; one that timed
  out, or whose result could not be persisted, stays fenced until it is reconciled.
*/
module ClaimCourses {
  import opened Common
  import opened ClaimStore
  import opened ClaimProtocol
  import opened ClaimSafety
  import opened ClaimConfirmation

  predicate InTables(s: State, r: Rid)
    requires r in s.runs && s.runs[r].proc in s.procs
  {
    Holds(s.procs[s.runs[r].proc].active, s.runs[r].task, r) && Holds(s.procs[s.runs[r].proc].inFlight, s.runs[r].task, r)
  }

  /** An accepted task whose `run()` waits for its policy or its tool. */
  predicate Awaits(s: State, r: Rid, exec: Exec) {
    AtPc(s, r) && s.runs[r].guarded && s.runs[r].pc.Executing? && s.runs[r].exec == exec && s.runs[r].gen.Some? && InTables(s, r)
  }

  function Unknown(s: State, r: Rid): set<TaskId>
    requires r in s.runs && s.runs[r].proc in s.procs
  {
    s.procs[s.runs[r].proc].unknown
  }

  /** The run has ended, its tool has settled, and its process has no entry for it any more. */
  function Over(s: State, r: Rid, ok: bool, unknown: set<TaskId>): State
    requires r in s.runs && s.runs[r].proc in s.procs
  {
    var p, t := s.runs[r].proc, s.runs[r].task;
    s.(runs := s.runs[r := s.runs[r].(pc := Ended, exec := Settled(ok))],
       procs := s.procs[p := s.procs[p].(active := s.procs[p].active - {t}, inFlight := s.procs[p].inFlight - {t},
                                         unknown := unknown)])
  }

  /** The task can be run again: no claim, no marker, no reservation; and the trace says why. */
  function Freed(s: State, r: Rid, ok: bool, e: Event): State
    requires r in s.runs && s.runs[r].proc in s.procs
  {
    var t := s.runs[r].task;
    Over(s, r, ok, Unknown(s, r) - {t}).(claims := s.claims - {t}, trace := s.trace + [e])
  }

  /** The task keeps its claim and is marked unknown. */
  function Fenced(s: State, r: Rid, ok: bool): State
    requires r in s.runs && s.runs[r].proc in s.procs
  {
    Over(s, r, ok, Unknown(s, r) + {s.runs[r].task})
  }

  /** The last two steps of every course: the active execution and the reservation go. */
  lemma TablesCleared(a: Authority, s: State, r: Rid)
    requires AtPc(s, r) && s.runs[r].guarded && s.runs[r].pc.Ended? && s.runs[r].exec.Settled? && InTables(s, r)
    ensures Path(a, s, [ForgetActive(r)] + ([Unreserve(r)] + []), Over(s, r, s.runs[r].exec.ok, Unknown(s, r)))
  {
    var p, t := s.runs[r].proc, s.runs[r].task;
    var s1 := Next(a, s, ForgetActive(r));
    var s2 := Next(a, s1, Unreserve(r));
    assert s.runs[r := s.runs[r]] == s.runs;
    assert s1.procs[p := s2.procs[p]] == s.procs[p := s2.procs[p]];
    assert s2 == Over(s, r, s.runs[r].exec.ok, Unknown(s, r));
    assert Path(a, s2, [], s2);
    PathStep(a, s1, Unreserve(r), [], s2);
    PathStep(a, s, ForgetActive(r), [Unreserve(r)] + [], s2);
  }

  function ReleaseSteps(r: Rid): seq<Step> {
    [AskRelease(r)] + ([ReleaseReply(r)] + ([ForgetActive(r)] + ([Unreserve(r)] + [])))
  }

  /** From the point where the run is about to release its claim. */
  lemma ReleaseCourse(a: Authority, s: State, r: Rid)
    requires AtPc(s, r) && s.runs[r].guarded && s.runs[r].pc.Releasing? && s.runs[r].exec.Settled? && InTables(s, r)
    ensures Path(a, s, ReleaseSteps(r),
                 Over(s, r, s.runs[r].exec.ok, Unknown(s, r) - {s.runs[r].task}).(claims := s.claims - {s.runs[r].task}))
  {
    var s1 := Next(a, s, AskRelease(r));
    var s2 := Next(a, s1, ReleaseReply(r));
    TablesCleared(a, s2, r);
    var end := Over(s2, r, s.runs[r].exec.ok, Unknown(s2, r));
    SameOver(s, s2, r, s.runs[r].exec.ok, Unknown(s2, r));
    PathStep(a, s1, ReleaseReply(r), [ForgetActive(r)] + ([Unreserve(r)] + []), end);
    PathStep(a, s, AskRelease(r), [ReleaseReply(r)] + ([ForgetActive(r)] + ([Unreserve(r)] + [])), end);
  }

  /** What a run's end overwrites does not matter before. */
  lemma SameOver(s: State, s': State, r: Rid, ok: bool, unknown: set<TaskId>)
    requires r in s.runs && s.runs[r].proc in s.procs && r in s'.runs && s.runs[r].proc in s'.procs
    requires s'.runs[r] == s.runs[r].(pc := s'.runs[r].pc, exec := s'.runs[r].exec) && s'.runs == s.runs[r := s'.runs[r]]
    requires var p := s.runs[r].proc;
             s'.procs[p] == s.procs[p].(unknown := s'.procs[p].unknown) && s'.procs == s.procs[p := s'.procs[p]]
    ensures Over(s', r, ok, unknown) == Over(s, r, ok, unknown).(claims := s'.claims, trace := s'.trace, recs := s'.recs, nextGen := s'.nextGen)
  {
    var end, end' := Over(s, r, ok, unknown), Over(s', r, ok, unknown);
    assert end'.runs == end.runs && end'.procs == end.procs;
  }

  /** The tool resolves and its result is persisted. */
  lemma ResolvedTaskPersists(a: Authority, s: State, r: Rid)
    requires Awaits(s, r, ToolRunning)
    ensures Path(a, s, [ToolSettles(r, true)] + ([Observe(r)] + ([Append(r, true)] + ReleaseSteps(r))),
                 Freed(s, r, true, Persisted(s.runs[r].task, s.runs[r].gen.value)))
  {
    var s1 := Next(a, s, ToolSettles(r, true));
    var s2 := Next(a, s1, Observe(r));
    var s3 := Next(a, s2, Append(r, true));
    assert s3 == Log(s.(runs := s.runs[r := s.runs[r].(pc := Releasing, exec := Settled(true))]),
                     Persisted(s.runs[r].task, s.runs[r].gen.value));
    ReleaseCourse(a, s3, r);
    SameOver(s, s3, r, true, Unknown(s, r) - {s.runs[r].task});
    var end := Freed(s, r, true, Persisted(s.runs[r].task, s.runs[r].gen.value));
    PathStep(a, s2, Append(r, true), ReleaseSteps(r), end);
    PathStep(a, s1, Observe(r), [Append(r, true)] + ReleaseSteps(r), end);
    PathStep(a, s, ToolSettles(r, true), [Observe(r)] + ([Append(r, true)] + ReleaseSteps(r)), end);
  }

  lemma RejectionObserved(a: Authority, s: State, r: Rid)
    requires Awaits(s, r, Settled(false)) && s.runs[r].task !in Unknown(s, r)
    ensures Path(a, s, [Observe(r)] + ReleaseSteps(r), Freed(s, r, false, Rejected(s.runs[r].task, s.runs[r].gen.value)))
  {
    var s1 := Next(a, s, Observe(r));
    ReleaseCourse(a, s1, r);
    SameOver(s, s1, r, false, Unknown(s, r) - {s.runs[r].task});
    PathStep(a, s, Observe(r), ReleaseSteps(r), Freed(s, r, false, Rejected(s.runs[r].task, s.runs[r].gen.value)));
  }

  /** The tool is rejected, or the policy denies it, before the deadline. */
  lemma RejectedTaskIsReleased(a: Authority, s: State, r: Rid, rejection: Step)
    requires r in s.runs && s.runs[r].proc in s.procs && s.runs[r].task !in Unknown(s, r)
    requires (Awaits(s, r, ToolRunning) && rejection == ToolSettles(r, false)) ||
             (Awaits(s, r, PolicyPending) && rejection == PolicyDenies(r))
    ensures Path(a, s, [rejection] + ([Observe(r)] + ReleaseSteps(r)),
                 Freed(s, r, false, Rejected(s.runs[r].task, s.runs[r].gen.value)))
  {
    var s1 := SetExec(s, r, Settled(false));
    assert Enabled(a, s, rejection) && Next(a, s, rejection) == s1;
    RejectionObserved(a, s1, r);
    var end := Freed(s, r, false, Rejected(s.runs[r].task, s.runs[r].gen.value));
    assert s1.runs[r := end.runs[r]] == end.runs;
    PathStep(a, s, rejection, [Observe(r)] + ReleaseSteps(r), end);
  }

  /** The deadline comes first; the tool settles one way or the other later. */
  lemma TimedOutTaskStaysFenced(a: Authority, s: State, r: Rid, ok: bool)
    requires Awaits(s, r, ToolRunning)
    ensures Path(a, s, [TimerFires(r)] + ([ToolSettles(r, ok)] + ([ForgetActive(r)] + ([Unreserve(r)] + []))), Fenced(s, r, ok))
  {
    var s1 := Next(a, s, TimerFires(r));
    var s2 := Next(a, s1, ToolSettles(r, ok));
    TablesCleared(a, s2, r);
    SameOver(s, s2, r, ok, Unknown(s2, r));
    var end := Fenced(s, r, ok);
    PathStep(a, s1, ToolSettles(r, ok), [ForgetActive(r)] + ([Unreserve(r)] + []), end);
    PathStep(a, s, TimerFires(r), [ToolSettles(r, ok)] + ([ForgetActive(r)] + ([Unreserve(r)] + [])), end);
  }

  /** The tool resolves but its result cannot be persisted. */
  lemma UnpersistedTaskStaysFenced(a: Authority, s: State, r: Rid)
    requires Awaits(s, r, ToolRunning)
    ensures Path(a, s, [ToolSettles(r, true)] + ([Observe(r)] + ([Append(r, false)] + ([ForgetActive(r)] + ([Unreserve(r)] + [])))),
                 Fenced(s, r, true))
  {
    var s1 := Next(a, s, ToolSettles(r, true));
    var s2 := Next(a, s1, Observe(r));
    var s3 := Next(a, s2, Append(r, false));
    TablesCleared(a, s3, r);
    SameOver(s, s3, r, true, Unknown(s3, r));
    var end := Fenced(s, r, true);
    PathStep(a, s2, Append(r, false), [ForgetActive(r)] + ([Unreserve(r)] + []), end);
    PathStep(a, s1, Observe(r), [Append(r, false)] + ([ForgetActive(r)] + ([Unreserve(r)] + [])), end);
    PathStep(a, s, ToolSettles(r, true), [Observe(r)] + ([Append(r, false)] + ([ForgetActive(r)] + ([Unreserve(r)] + []))), end);
  }

  /** `run()` has ended in this process with the marker as given; its tables are as they were. */
  function EndedWith(s: State, r: Rid, unknown: set<TaskId>): State
    requires r in s.runs && s.runs[r].proc in s.procs
  {
    s.(runs := s.runs[r := s.runs[r].(pc := Ended)],
       procs := s.procs[s.runs[r].proc := s.procs[s.runs[r].proc].(unknown := unknown)])
  }

  /** The release of the claim fails: the claim stays and the task is marked. */
  lemma FailedReleaseStaysFenced(a: Authority, s: State, r: Rid)
    requires AtPc(s, r) && s.runs[r].pc.Releasing?
    ensures Path(a, s, [StoreFails(r)] + ([ReleaseReply(r)] + []), EndedWith(s, r, Unknown(s, r) + {s.runs[r].task}))
  {
    var s1 := Next(a, s, StoreFails(r));
    var end := EndedWith(s, r, Unknown(s, r) + {s.runs[r].task});
    assert s1.runs[r := end.runs[r]] == end.runs;
    assert Next(a, s1, ReleaseReply(r)) == end;
    assert Path(a, end, [], end);
    PathStep(a, s1, ReleaseReply(r), [], end);
    PathStep(a, s, StoreFails(r), [ReleaseReply(r)] + [], end);
  }

  /** A store that fails before the claim ends `run()`; nothing was claimed, invoked or marked. */
  lemma FailedStoreEndsRun(a: Authority, s: State, r: Rid)
    requires AtPc(s, r) && (s.runs[r].pc.Fenced? || s.runs[r].pc.Claiming?)
    ensures Enabled(a, s, StoreFails(r)) && Next(a, s, StoreFails(r)) == EndedWith(s, r, Unknown(s, r))
  {
    assert s.procs[s.runs[r].proc := s.procs[s.runs[r].proc]] == s.procs;
  }

  /** A rejection seen while the task is marked unknown does not release the claim. */
  lemma MarkedRejectionKeepsClaim(a: Authority, s: State, r: Rid)
    requires AtPc(s, r) && s.runs[r].pc.Executing? && s.runs[r].exec == Settled(false) && s.runs[r].task in Unknown(s, r)
    ensures Enabled(a, s, Observe(r)) && Next(a, s, Observe(r)) == EndedWith(s, r, Unknown(s, r))
  {
    assert s.procs[s.runs[r].proc := s.procs[s.runs[r].proc]] == s.procs;
  }

  /** After a stop has begun no task is accepted; the shutdown's end clears the reservations and comes once. */
  lemma ShutdownOfProcess(a: Authority, s: State, p: Pid)
    requires Up(s, p) && s.procs[p].started && !s.procs[p].finished
    ensures var s1 := Next(a, s, BeginStop(p));
            var s2 := Next(a, s1, FinishStop(p));
            && (forall t, r :: !Enabled(a, s1, ExecuteTask(p, t, r)) && !Enabled(a, s2, ExecuteTask(p, t, r)))
            && s2 == s.(procs := s.procs[p := s.procs[p].(started := false, finished := true, inFlight := map[])])
            && !Enabled(a, s2, FinishStop(p)) && !Enabled(a, s2, BeginStop(p))
  {
    var s1 := Next(a, s, BeginStop(p));
    var s2 := Next(a, s1, FinishStop(p));
    assert s1.procs[p := s2.procs[p]] == s.procs[p := s2.procs[p]];
  }

  /** A crashed process takes no step any more, and never comes back under its number. */
  lemma CrashIsFinal(a: Authority, s: State, p: Pid, step: Step)
    requires p in s.procs && !s.procs[p].up && Enabled(a, s, step)
    ensures match step
            case ToolDies(r) => true
            case Boot(p') => p' != p
            case BeginStop(p') => p' != p
            case FinishStop(p') => p' != p
            case Crash(p') => p' != p
            case ExecuteTask(p', _, _) => p' != p
            case RunDirectly(p', _, _) => p' != p
            case Reconcile(p', _, _, _) => p' != p
            case Inspect(q) => s.recs[q].proc != p
            case AuthorityReply(q, _) => s.recs[q].proc != p
            case Recheck(q) => s.recs[q].proc != p
            case AskMatch(q) => s.recs[q].proc != p
            case MatchReply(q) => s.recs[q].proc != p
            case RecFails(q) => s.recs[q].proc != p
            case _ => step.r in s.runs && s.runs[step.r].proc != p
  {
  }

  /** A crash takes the process's volatile state out of play and nothing else; its tools die later. */
  lemma CrashThenToolDies(a: Authority, s: State, r: Rid)
    requires AtPc(s, r) && s.runs[r].exec.ToolRunning?
    ensures var p := s.runs[r].proc;
            var s1 := Next(a, s, Crash(p));
            && s1 == s.(procs := s.procs[p := s.procs[p].(up := false)])
            && Enabled(a, s1, ToolDies(r))
            && Next(a, s1, ToolDies(r)) == s1.(runs := s.runs[r := s.runs[r].(exec := Dead)])
  {
  }

  // ---------------------------------------------------------------------------------------
  // Running a task again

  function Refused(s: State, p: Pid, t: TaskId, r: Rid): State
    requires p in s.procs
  {
    s.(runs := s.runs[r := Run(p, t, false, Ended, None, NotCalled)],
       procs := s.procs[p := s.procs[p].(unknown := s.procs[p].unknown + {t})])
  }

  /** A task with a claim is refused after the marker made the runner ask the store. */
  lemma MarkedTaskIsRefused(a: Authority, s: State, p: Pid, t: TaskId, r: Rid)
    requires Up(s, p) && r !in s.runs && t in s.claims && t in s.procs[p].unknown
    ensures Path(a, s, [RunDirectly(p, t, r)] + ([AskFence(r)] + ([FenceReply(r)] + [])), Refused(s, p, t, r))
  {
    var end := Refused(s, p, t, r);
    var s1 := Next(a, s, RunDirectly(p, t, r));
    var s2 := Next(a, s1, AskFence(r));
    assert s.procs[p].unknown + {t} == s.procs[p].unknown;
    assert s2.runs[r := end.runs[r]] == end.runs && s.procs[p := s.procs[p]] == s.procs;
    assert Next(a, s2, FenceReply(r)) == end;
    assert Path(a, end, [], end);
    PathStep(a, s2, FenceReply(r), [], end);
    PathStep(a, s1, AskFence(r), [FenceReply(r)] + [], end);
    PathStep(a, s, RunDirectly(p, t, r), [AskFence(r)] + ([FenceReply(r)] + []), end);
  }

  /** Without a marker its claim attempt fails; the task is marked then. */
  lemma FencedTaskIsRefused(a: Authority, s: State, p: Pid, t: TaskId, r: Rid, at: int)
    requires Up(s, p) && r !in s.runs && t in s.claims && t !in s.procs[p].unknown
    ensures Path(a, s, [RunDirectly(p, t, r)] + ([AskClaim(r, at)] + ([ClaimReply(r)] + [])), Refused(s, p, t, r))
  {
    var end := Refused(s, p, t, r);
    var s1 := Next(a, s, RunDirectly(p, t, r));
    var s2 := Next(a, s1, AskClaim(r, at));
    assert s2.runs[r := end.runs[r]] == end.runs;
    assert Next(a, s2, ClaimReply(r)) == end;
    assert Path(a, end, [], end);
    PathStep(a, s2, ClaimReply(r), [], end);
    PathStep(a, s1, AskClaim(r, at), [ClaimReply(r)] + [], end);
    PathStep(a, s, RunDirectly(p, t, r), [AskClaim(r, at)] + ([ClaimReply(r)] + []), end);
  }

  /** A marker without a claim is only a cache: the store is asked, and the task may claim. */
  lemma StaleMarkerIsForgotten(a: Authority, s: State, p: Pid, t: TaskId, r: Rid)
    requires Up(s, p) && r !in s.runs && t !in s.claims && t in s.procs[p].unknown
    ensures Path(a, s, [RunDirectly(p, t, r)] + ([AskFence(r)] + ([FenceReply(r)] + [])),
                 s.(runs := s.runs[r := Run(p, t, false, Claiming, None, NotCalled)],
                    procs := s.procs[p := s.procs[p].(unknown := s.procs[p].unknown - {t})]))
  {
    var s1 := Next(a, s, RunDirectly(p, t, r));
    var s2 := Next(a, s1, AskFence(r));
    var end := Next(a, s2, FenceReply(r));
    assert s2.runs[r := end.runs[r]] == s.runs[r := end.runs[r]];
    assert Path(a, end, [], end);
    PathStep(a, s2, FenceReply(r), [], end);
    PathStep(a, s1, AskFence(r), [FenceReply(r)] + [], end);
    PathStep(a, s, RunDirectly(p, t, r), [AskFence(r)] + ([FenceReply(r)] + []), end);
  }

  // ---------------------------------------------------------------------------------------
  // Reconciling a task

  function Reconciling(s: State, p: Pid, t: TaskId, q: Qid, pc: RecPc): State {
    s.(recs := s.recs[q := Rec(p, t, pc)])
  }

  predicate MayReconcile(s: State, p: Pid, t: TaskId, q: Qid, g: nat) {
    Up(s, p) && q !in s.recs && t !in s.procs[p].active && Matches(s.claims, t, g)
  }

  lemma ReconciliationAsks(a: Authority, s: State, p: Pid, t: TaskId, q: Qid, g: nat)
    requires MayReconcile(s, p, t, q, g)
    ensures Path(a, s, [Reconcile(p, t, q, false)] + ([Inspect(q)] + []), Reconciling(s, p, t, q, Verifying(g)))
  {
    var s1 := Next(a, s, Reconcile(p, t, q, false));
    var s2 := Next(a, s1, Inspect(q));
    assert s2 == Reconciling(s, p, t, q, Verifying(g));
    assert Path(a, s2, [], s2);
    PathStep(a, s1, Inspect(q), [], s2);
    PathStep(a, s, Reconcile(p, t, q, false), [Inspect(q)] + [], s2);
  }

  function MatchSteps(q: Qid): seq<Step> {
    [AuthorityReply(q, true)] + ([Recheck(q)] + ([AskMatch(q)] + ([MatchReply(q)] + [])))
  }

  function Reconciliation(s: State, p: Pid, t: TaskId, q: Qid, g: nat): State
    requires p in s.procs
  {
    Reconciling(s, p, t, q, Closed).(
      claims := s.claims - {t}, trace := s.trace + [Reconciled(t, g)],
      procs := s.procs[p := s.procs[p].(unknown := s.procs[p].unknown - {t})])
  }

  lemma ConfirmationReleases(a: Authority, s: State, p: Pid, t: TaskId, q: Qid, g: nat)
    requires MayReconcile(s, p, t, q, g) && MayConfirm(a, Reconciling(s, p, t, q, Verifying(g)), Rec(p, t, Verifying(g)))
    ensures Path(a, Reconciling(s, p, t, q, Verifying(g)), MatchSteps(q), Reconciliation(s, p, t, q, g))
  {
    var s2 := Reconciling(s, p, t, q, Verifying(g));
    var s3 := Next(a, s2, AuthorityReply(q, true));
    var s4 := Next(a, s3, Recheck(q));
    assert s4 == Reconciling(s, p, t, q, Matching(g));
    MatchReleases(a, s, p, t, q, g);
    var end := Reconciliation(s, p, t, q, g);
    PathStep(a, s3, Recheck(q), [AskMatch(q)] + ([MatchReply(q)] + []), end);
    PathStep(a, s2, AuthorityReply(q, true), [Recheck(q)] + ([AskMatch(q)] + ([MatchReply(q)] + [])), end);
  }

  lemma MatchReleases(a: Authority, s: State, p: Pid, t: TaskId, q: Qid, g: nat)
    requires MayReconcile(s, p, t, q, g)
    ensures Path(a, Reconciling(s, p, t, q, Matching(g)), [AskMatch(q)] + ([MatchReply(q)] + []), Reconciliation(s, p, t, q, g))
  {
    var s4 := Reconciling(s, p, t, q, Matching(g));
    var s5 := Next(a, s4, AskMatch(q));
    var end := Reconciliation(s, p, t, q, g);
    assert s5 == Log(Reconciling(s, p, t, q, Matched(true)).(claims := s.claims - {t}), Reconciled(t, g));
    assert s5.recs[q := Rec(p, t, Closed)] == end.recs;
    assert Next(a, s5, MatchReply(q)) == end;
    assert Path(a, end, [], end);
    PathStep(a, s5, MatchReply(q), [], end);
    PathStep(a, s4, AskMatch(q), [MatchReply(q)] + [], end);
  }

  /** A confirmed reconciliation frees the task: no claim, no marker; a refused one changes nothing else. */
  lemma ReconciliationFreesTask(a: Authority, s: State, p: Pid, t: TaskId, q: Qid, g: nat)
    requires MayReconcile(s, p, t, q, g)
    ensures MayConfirm(a, Reconciling(s, p, t, q, Verifying(g)), Rec(p, t, Verifying(g))) ==>
              Path(a, s, [Reconcile(p, t, q, false)] + ([Inspect(q)] + []) + MatchSteps(q), Reconciliation(s, p, t, q, g))
    ensures Path(a, s, [Reconcile(p, t, q, false)] + ([Inspect(q)] + []) + ([AuthorityReply(q, false)] + []),
                 Reconciling(s, p, t, q, Closed))
  {
    var s2 := Reconciling(s, p, t, q, Verifying(g));
    var asks := [Reconcile(p, t, q, false)] + ([Inspect(q)] + []);
    ReconciliationAsks(a, s, p, t, q, g);
    if MayConfirm(a, s2, Rec(p, t, Verifying(g))) {
      ConfirmationReleases(a, s, p, t, q, g);
      PathTrans(a, s, asks, s2, MatchSteps(q), Reconciliation(s, p, t, q, g));
    }
    var end := Reconciling(s, p, t, q, Closed);
    assert Next(a, s2, AuthorityReply(q, false)) == end;
    assert Path(a, end, [], end);
    PathStep(a, s2, AuthorityReply(q, false), [], end);
    PathTrans(a, s, asks, s2, [AuthorityReply(q, false)] + [], end);
  }

  /** A store failure, a missing or legacy claim, or an active local execution ends a reconciliation and changes nothing else. */
  lemma ReconciliationIsRefused(a: Authority, s: State, q: Qid, step: Step)
    requires AtRecPc(s, q)
    requires (step == RecFails(q) && (s.recs[q].pc.Inspecting? || s.recs[q].pc.Matching?)) ||
             (step == Inspect(q) && s.recs[q].pc.Inspecting? && (s.recs[q].task !in s.claims || s.claims[s.recs[q].task].Legacy?)) ||
             (step == Recheck(q) && s.recs[q].pc.Confirmed? && s.recs[q].task in s.procs[s.recs[q].proc].active)
    ensures Enabled(a, s, step) && Next(a, s, step) == SetRec(s, q, Closed)
  {
  }

  /** A reconciliation that comes too late for its generation closes and changes nothing else. */
  lemma StaleReconciliationChangesNothing(a: Authority, s: State, p: Pid, t: TaskId, q: Qid, g: nat)
    requires Up(s, p) && q !in s.recs && !Matches(s.claims, t, g)
    ensures Path(a, Reconciling(s, p, t, q, Matching(g)), [AskMatch(q)] + ([MatchReply(q)] + []), Reconciling(s, p, t, q, Closed))
  {
    var s1 := Reconciling(s, p, t, q, Matching(g));
    var s2 := Next(a, s1, AskMatch(q));
    var end := Reconciling(s, p, t, q, Closed);
    assert s2 == Reconciling(s, p, t, q, Matched(false));
    assert s2.recs[q := Rec(p, t, Closed)] == end.recs;
    assert Next(a, s2, MatchReply(q)) == end;
    assert Path(a, end, [], end);
    PathStep(a, s2, MatchReply(q), [], end);
    PathStep(a, s1, AskMatch(q), [MatchReply(q)] + [], end);
  }

  // ---------------------------------------------------------------------------------------
  // From boot to the end

  /** A fresh runtime runs an unclaimed task to its persisted end; the store is as before. */
  lemma FreshTaskCompletes(a: Authority, s: State, t: TaskId, p: Pid, r: Rid)
    requires Free(s, t, p, r)
    ensures var s1 := AfterInvocation(s, t, p, r);
            var end := Freed(s1, r, true, Persisted(t, s.nextGen));
            && Path(a, s, InvocationSteps(t, p, r) + ([ToolSettles(r, true)] + ([Observe(r)] + ([Append(r, true)] + ReleaseSteps(r)))), end)
            && end.claims == s.claims && end.procs[p] == IdleProc
            && end.trace == s.trace + [Invoked(t, s.nextGen), Persisted(t, s.nextGen)]
  {
    var s1 := AfterInvocation(s, t, p, r);
    FreshRuntimeInvokes(a, s, t, p, r);
    ResolvedTaskPersists(a, s1, r);
    PathTrans(a, s, InvocationSteps(t, p, r), s1, [ToolSettles(r, true)] + ([Observe(r)] + ([Append(r, true)] + ReleaseSteps(r))),
              Freed(s1, r, true, Persisted(t, s.nextGen)));
    assert s.claims[t := Current(s.nextGen, 0)] - {t} == s.claims;
    assert {} - {t} == {};
  }
}
