/**
  What the trace says is what happened: every event in it has its cause in the steps that were taken.
*/
module ClaimHistory {
  import opened Common
  import opened ClaimStore
  import opened ClaimProtocol
  import opened ClaimSafety
  import opened ClaimTables
  import opened ClaimTheorems

  /** The first step was taken, and later the second. */
  predicate Then(history: seq<Step>, first: Step, second: Step) {
    exists i, j :: 0 <= i < j < |history| && history[i] == first && history[j] == second
  }

  /** How a run's tool stands, told from the steps. */
  predicate RunExplained(history: seq<Step>, run: Run, r: Rid) {
    && (run.exec.ToolRunning? || run.exec == Settled(true) ==> ToolStarts(r) in history)
    && (run.exec == Settled(true) ==> ToolSettles(r, true) in history)
    && (run.exec == Settled(false) ==> ToolSettles(r, false) in history || PolicyDenies(r) in history)
    && (run.pc.Persisting? ==> run.exec == Settled(true))
  }

  predicate RecExplained(history: seq<Step>, rec: Rec, q: Qid) {
    rec.pc.Confirmed? || rec.pc.Matching? ==> AuthorityReply(q, true) in history
  }

  /** The run that this event is about, and the steps that led to it. */
  predicate CausedByRun(history: seq<Step>, e: Event, r: Rid) {
    match e
    case Invoked(_, _) => ToolStarts(r) in history
    case Rejected(_, _) => ToolSettles(r, false) in history || PolicyDenies(r) in history
    case Persisted(_, _) => Then(history, ToolSettles(r, true), Append(r, true))
    case Reconciled(_, _) => false
  }

  predicate EventExplained(history: seq<Step>, s: State, e: Event) {
    if e.Reconciled? then
      exists q :: q in s.recs && s.recs[q].task == e.task && Then(history, AuthorityReply(q, true), AskMatch(q))
    else
      exists r :: r in s.runs && OfClaim(s.runs[r], e.task, e.gen) && CausedByRun(history, e, r)
  }

  predicate Explained(history: seq<Step>, s: State) {
    && (forall r :: r in s.runs ==> RunExplained(history, s.runs[r], r))
    && (forall q :: q in s.recs ==> RecExplained(history, s.recs[q], q))
    && (forall k :: 0 <= k < |s.trace| ==> EventExplained(history, s, s.trace[k]))
  }

  // ---------------------------------------------------------------------------------------
  // Preservation

  /** Runs keep their task and generation, reconciliations their task. */
  predicate Persists(s: State, s': State) {
    && SameIdentities(s, s')
    && (forall q :: q in s.recs ==> q in s'.recs && s'.recs[q].task == s.recs[q].task)
  }

  predicate SameIdentity(run: Run, run': Run) {
    run'.task == run.task && (run.gen.Some? ==> run'.gen == run.gen)
  }

  lemma MovedRunPersists(s: State, step: Step)
    requires Inv(s) && Enabled(Sound, s, step) && IsLoudRunStep(step)
    ensures step.r in Next(Sound, s, step).runs && SameIdentity(s.runs[step.r], Next(Sound, s, step).runs[step.r])
  {
  }

  predicate SameIdentities(s: State, s': State) {
    forall r :: r in s.runs ==> r in s'.runs && SameIdentity(s.runs[r], s'.runs[r])
  }

  lemma QuietPersists(s: State, s': State)
    requires Quiet(s, s')
    ensures SameIdentities(s, s')
  {
    forall r | r in s.runs ensures RunQuiet(s, s', r) {}
  }

  lemma MovePersists(s: State, s': State, r: Rid)
    requires MovesRun(s, s', r) && SameIdentity(s.runs[r], s'.runs[r])
    ensures SameIdentities(s, s')
  {
  }

  lemma QuietRunsPersist(s: State, step: Step)
    requires Inv(s) && Enabled(Sound, s, step) && IsQuiet(step)
    ensures SameIdentities(s, Next(Sound, s, step))
  {
    QuietStep(Sound, s, step);
    QuietPersists(s, Next(Sound, s, step));
  }

  lemma RecRunsPersist(s: State, step: Step)
    requires Enabled(Sound, s, step) && IsRecStep(step)
    ensures SameIdentities(s, Next(Sound, s, step))
  {
    RecStepMovesNothing(Sound, s, step);
    var s' := Next(Sound, s, step);
    assert s'.runs == s.runs;
  }

  predicate IsLoudRunStep(step: Step) {
    step.AskClaim? || step.Observe? || step.Append? || step.AskRelease? || step.ToolStarts?
  }

  lemma LoudRunsPersist(s: State, step: Step)
    requires Inv(s) && Enabled(Sound, s, step) && IsLoudRunStep(step)
    ensures SameIdentities(s, Next(Sound, s, step))
  {
    MovedRunPersists(s, step);
    MoveMovesRun(Sound, s, step);
    MovePersists(s, Next(Sound, s, step), step.r);
  }

  lemma RunsPersist(s: State, step: Step)
    requires Inv(s) && Enabled(Sound, s, step)
    ensures SameIdentities(s, Next(Sound, s, step))
  {
    if IsLoudRunStep(step) {
      LoudRunsPersist(s, step);
    } else if IsRecStep(step) {
      RecRunsPersist(s, step);
    } else {
      QuietRunsPersist(s, step);
    }
  }

  lemma OtherStepsKeepRecs(s: State, step: Step)
    requires Enabled(Sound, s, step) && !IsRecStep(step)
    ensures Next(Sound, s, step).recs == s.recs
  {
  }

  lemma RecStepPersists(s: State, step: Step)
    requires Enabled(Sound, s, step) && IsRecStep(step)
    ensures forall q :: q in s.recs ==>
              q in Next(Sound, s, step).recs && Next(Sound, s, step).recs[q].task == s.recs[q].task
  {
  }

  lemma RecsPersist(s: State, step: Step)
    requires Enabled(Sound, s, step)
    ensures forall q :: q in s.recs ==>
              q in Next(Sound, s, step).recs && Next(Sound, s, step).recs[q].task == s.recs[q].task
  {
    if IsRecStep(step) {
      RecStepPersists(s, step);
    } else {
      OtherStepsKeepRecs(s, step);
    }
  }

  lemma StepPersists(s: State, step: Step)
    requires Inv(s) && Enabled(Sound, s, step)
    ensures Persists(s, Next(Sound, s, step))
  {
    RunsPersist(s, step);
    RecsPersist(s, step);
  }

  lemma ThenGrows(history: seq<Step>, step: Step, first: Step, second: Step)
    requires Then(history, first, second)
    ensures Then(history + [step], first, second)
  {
    var i, j :| 0 <= i < j < |history| && history[i] == first && history[j] == second;
    var longer := history + [step];
    assert longer[i] == first && longer[j] == second;
  }

  lemma ThenNow(history: seq<Step>, first: Step, second: Step)
    requires first in history
    ensures Then(history + [second], first, second)
  {
    var i :| 0 <= i < |history| && history[i] == first;
    var longer := history + [second];
    assert longer[i] == first && longer[|history|] == second;
  }

  lemma OldEventStaysExplained(history: seq<Step>, s: State, s': State, step: Step, e: Event)
    requires Persists(s, s') && EventExplained(history, s, e)
    ensures EventExplained(history + [step], s', e)
  {
    if e.Reconciled? {
      var q :| q in s.recs && s.recs[q].task == e.task && Then(history, AuthorityReply(q, true), AskMatch(q));
      ThenGrows(history, step, AuthorityReply(q, true), AskMatch(q));
      assert q in s'.recs;
    } else {
      var r :| r in s.runs && OfClaim(s.runs[r], e.task, e.gen) && CausedByRun(history, e, r);
      if e.Persisted? {
        ThenGrows(history, step, ToolSettles(r, true), Append(r, true));
      }
      assert r in s'.runs && CausedByRun(history + [step], e, r);
    }
  }

  /** A step that the run's tool does not take leaves the tool alone. */
  predicate IsToolStep(step: Step) {
    step.PolicyDenies? || step.ToolStarts? || step.ToolSettles? || step.ToolDies?
  }

  lemma MovedRunStaysExplained(history: seq<Step>, s: State, step: Step)
    requires Explained(history, s) && Enabled(Sound, s, step)
    requires OnlyMoves(step) || step.ClaimReply? || step.ToolDies?
    ensures step.r in Next(Sound, s, step).runs && RunExplained(history + [step], Next(Sound, s, step).runs[step.r], step.r)
  {
    assert RunExplained(history, s.runs[step.r], step.r);
    if IsToolStep(step) {
      ToolStepStaysExplained(history, s, step);
    } else {
      PcStepStaysExplained(history, s, step);
    }
  }

  lemma ToolStepStaysExplained(history: seq<Step>, s: State, step: Step)
    requires Enabled(Sound, s, step) && IsToolStep(step) && RunExplained(history, s.runs[step.r], step.r)
    ensures step.r in Next(Sound, s, step).runs && RunExplained(history + [step], Next(Sound, s, step).runs[step.r], step.r)
  {
  }

  lemma PcStepStaysExplained(history: seq<Step>, s: State, step: Step)
    requires Enabled(Sound, s, step) && !IsToolStep(step) && (OnlyMoves(step) || step.ClaimReply?)
    requires RunExplained(history, s.runs[step.r], step.r)
    ensures step.r in Next(Sound, s, step).runs && RunExplained(history + [step], Next(Sound, s, step).runs[step.r], step.r)
  {
  }

  lemma OtherRunsStay(s: State, step: Step, x: Rid)
    requires Enabled(Sound, s, step) && x in Next(Sound, s, step).runs
    requires OnlyMoves(step) || step.ClaimReply? || step.ToolDies? ==> x != step.r
    ensures var run := Next(Sound, s, step).runs[x];
            (x in s.runs && run == s.runs[x]) || (run.exec.NotCalled? && !run.pc.Persisting?)
  {
    if OnlyMoves(step) {
      MoveMovesRun(Sound, s, step);
    } else if IsRecStep(step) {
      RecStepMovesNothing(Sound, s, step);
    }
  }

  lemma RunStaysExplained(history: seq<Step>, s: State, step: Step, r: Rid)
    requires Explained(history, s) && Enabled(Sound, s, step) && r in Next(Sound, s, step).runs
    ensures RunExplained(history + [step], Next(Sound, s, step).runs[r], r)
  {
    if (OnlyMoves(step) || step.ClaimReply? || step.ToolDies?) && r == step.r {
      MovedRunStaysExplained(history, s, step);
    } else {
      OtherRunsStay(s, step, r);
      if r in s.runs {
        assert RunExplained(history, s.runs[r], r);
      }
    }
  }

  lemma RecAfterStep(history: seq<Step>, s: State, step: Step, q: Qid)
    requires Enabled(Sound, s, step) && IsRecStep(step) && q in Next(Sound, s, step).recs
    requires q in s.recs ==> RecExplained(history, s.recs[q], q)
    ensures RecExplained(history + [step], Next(Sound, s, step).recs[q], q)
  {
  }

  lemma RecStaysExplained(history: seq<Step>, s: State, step: Step, q: Qid)
    requires Explained(history, s) && Enabled(Sound, s, step) && q in Next(Sound, s, step).recs
    ensures RecExplained(history + [step], Next(Sound, s, step).recs[q], q)
  {
    if IsRecStep(step) {
      RecAfterStep(history, s, step, q);
    } else {
      OtherStepsKeepRecs(s, step);
    }
  }

  /** The trace is as before, or one explained event longer. */
  predicate NewEventExplained(history: seq<Step>, s: State, s': State) {
    s'.trace == s.trace ||
    (s'.trace != [] && s'.trace[..|s'.trace| - 1] == s.trace && EventExplained(history, s', s'.trace[|s'.trace| - 1]))
  }

  lemma RunEventIsExplained(history: seq<Step>, s: State, step: Step)
    requires Inv(s) && Explained(history, s) && Enabled(Sound, s, step) && (step.Observe? || step.Append? || step.ToolStarts?)
    ensures NewEventExplained(history + [step], s, Next(Sound, s, step))
  {
    var s' := Next(Sound, s, step);
    var r := step.r;
    assert RunExplained(history, s.runs[r], r);
    if s'.trace != s.trace {
      var e := s'.trace[|s'.trace| - 1];
      if step.Append? {
        ThenNow(history, ToolSettles(r, true), Append(r, true));
      }
      assert r in s'.runs && OfClaim(s'.runs[r], e.task, e.gen) && CausedByRun(history + [step], e, r);
    }
  }

  lemma MatchEventIsExplained(history: seq<Step>, s: State, q: Qid)
    requires Explained(history, s) && Enabled(Sound, s, AskMatch(q))
    ensures NewEventExplained(history + [AskMatch(q)], s, Next(Sound, s, AskMatch(q)))
  {
    var s' := Next(Sound, s, AskMatch(q));
    assert RecExplained(history, s.recs[q], q);
    ThenNow(history, AuthorityReply(q, true), AskMatch(q));
    assert q in s'.recs && s'.recs[q].task == s.recs[q].task;
  }

  lemma NewEventIsExplained(history: seq<Step>, s: State, step: Step)
    requires Inv(s) && Explained(history, s) && Enabled(Sound, s, step)
    ensures NewEventExplained(history + [step], s, Next(Sound, s, step))
  {
    if IsQuiet(step) {
      QuietStep(Sound, s, step);
    } else if step.Observe? || step.Append? || step.ToolStarts? {
      RunEventIsExplained(history, s, step);
    } else if step.AskMatch? {
      MatchEventIsExplained(history, s, step.q);
    }
  }

  lemma StepStaysExplained(history: seq<Step>, s: State, step: Step)
    requires Inv(s) && Explained(history, s) && Enabled(Sound, s, step)
    ensures Explained(history + [step], Next(Sound, s, step))
  {
    var s' := Next(Sound, s, step);
    StepPersists(s, step);
    NewEventIsExplained(history, s, step);
    forall r | r in s'.runs ensures RunExplained(history + [step], s'.runs[r], r) {
      RunStaysExplained(history, s, step, r);
    }
    forall q | q in s'.recs ensures RecExplained(history + [step], s'.recs[q], q) {
      RecStaysExplained(history, s, step, q);
    }
    forall k | 0 <= k < |s'.trace| ensures EventExplained(history + [step], s', s'.trace[k]) {
      if k < |s.trace| {
        assert s'.trace[k] == s.trace[k];
        OldEventStaysExplained(history, s, s', step, s.trace[k]);
      }
    }
  }

  lemma {:induction false} PathStaysExplained(history: seq<Step>, s: State, steps: seq<Step>, end: State)
    requires Inv(s) && TraceInv(s) && Tables(s) && Explained(history, s) && Path(Sound, s, steps, end)
    ensures Explained(history + steps, end)
    decreases |steps|
  {
    if steps == [] {
      assert history + steps == history;
    } else {
      StepStaysExplained(history, s, steps[0]);
      StepKeepsInv(s, steps[0]);
      StepKeepsTrace(s, steps[0]);
      StepKeepsTables(Sound, s, steps[0]);
      PathStaysExplained(history + [steps[0]], Next(Sound, s, steps[0]), steps[1..], end);
      assert history + [steps[0]] + steps[1..] == history + steps;
    }
  }

  /**
    Every event of a whole run is about a run of that claim and has its cause in the steps: an
    invocation in the tool's start; a rejection in the tool's rejection or the policy's denial; a
    persisted result in the tool's resolution and, after it, the successful append.  A reconciliation
    follows a confirmation by the authority.
  */
  lemma TraceTellsWhatHappened(s: State, steps: seq<Step>, end: State, k: nat)
    requires Init(s) && Path(Sound, s, steps, end) && k < |end.trace|
    ensures match end.trace[k]
            case Invoked(t, g) => exists r :: r in end.runs && OfClaim(end.runs[r], t, g) && ToolStarts(r) in steps
            case Rejected(t, g) =>
              exists r :: r in end.runs && OfClaim(end.runs[r], t, g) && (ToolSettles(r, false) in steps || PolicyDenies(r) in steps)
            case Persisted(t, g) =>
              exists r :: r in end.runs && OfClaim(end.runs[r], t, g) && Then(steps, ToolSettles(r, true), Append(r, true))
            case Reconciled(t, g) =>
              exists q :: q in end.recs && end.recs[q].task == t && Then(steps, AuthorityReply(q, true), AskMatch(q))
  {
    PathStaysExplained([], s, steps, end);
    assert [] + steps == steps;
    assert EventExplained(steps, end, end.trace[k]);
  }

  /**
    A task id is invoked again only after the steps gave a reason: the earlier claim's own run saw its
    tool rejected, or resolved and then persisted, or the authority confirmed and the claim was matched.
  */
  lemma RetriesFollowTheirCause(s: State, steps: seq<Step>, end: State, i: nat, j: nat)
    requires Init(s) && Path(Sound, s, steps, end)
    requires i < j < |end.trace| && end.trace[i].Invoked? && end.trace[j].Invoked? && end.trace[i].task == end.trace[j].task
    ensures var t, g := end.trace[i].task, end.trace[i].gen;
            || (exists r :: r in end.runs && OfClaim(end.runs[r], t, g) &&
                            (ToolSettles(r, false) in steps || PolicyDenies(r) in steps ||
                             Then(steps, ToolSettles(r, true), Append(r, true))))
            || (exists q :: q in end.recs && end.recs[q].task == t && Then(steps, AuthorityReply(q, true), AskMatch(q)))
  {
    RetriesHaveAReason(s, steps, end, i, j);
    var k :| i < k < j && IsReason(end.trace[k], end.trace[i].task, end.trace[i].gen);
    TraceTellsWhatHappened(s, steps, end, k);
  }

  // ---------------------------------------------------------------------------------------
  // A tool settles once, and a timeout comes before that or not at all

  /** What has been settled is settled, as it was. */
  ghost predicate StaysSettled(history: seq<Step>, s: State) {
    && (forall r, ok :: ToolSettles(r, ok) in history ==> r in s.runs && s.runs[r].exec == Settled(ok))
    && (forall r :: PolicyDenies(r) in history ==> r in s.runs && s.runs[r].exec == Settled(false))
  }

  lemma SettledRunStays(s: State, step: Step, r: Rid)
    requires Inv(s) && Enabled(Sound, s, step) && r in s.runs && s.runs[r].exec.Settled?
    ensures r in Next(Sound, s, step).runs && Next(Sound, s, step).runs[r].exec == s.runs[r].exec
  {
    if OnlyMoves(step) {
      MoveMovesRun(Sound, s, step);
    } else if IsRecStep(step) {
      RecStepMovesNothing(Sound, s, step);
    }
  }

  lemma StepKeepsSettled(history: seq<Step>, s: State, step: Step)
    requires Inv(s) && StaysSettled(history, s) && Enabled(Sound, s, step)
    ensures StaysSettled(history + [step], Next(Sound, s, step))
  {
    var s' := Next(Sound, s, step);
    forall r, ok | ToolSettles(r, ok) in history + [step] ensures r in s'.runs && s'.runs[r].exec == Settled(ok) {
      if ToolSettles(r, ok) in history {
        SettledRunStays(s, step, r);
      }
    }
    forall r | PolicyDenies(r) in history + [step] ensures r in s'.runs && s'.runs[r].exec == Settled(false) {
      if PolicyDenies(r) in history {
        SettledRunStays(s, step, r);
      }
    }
  }

  lemma {:induction false} PathKeepsSettled(history: seq<Step>, s: State, steps: seq<Step>, end: State)
    requires Inv(s) && TraceInv(s) && Tables(s) && StaysSettled(history, s) && Path(Sound, s, steps, end)
    ensures StaysSettled(history + steps, end)
    decreases |steps|
  {
    if steps == [] {
      assert history + steps == history;
    } else {
      StepKeepsSettled(history, s, steps[0]);
      StepKeepsInv(s, steps[0]);
      StepKeepsTrace(s, steps[0]);
      StepKeepsTables(Sound, s, steps[0]);
      PathKeepsSettled(history + [steps[0]], Next(Sound, s, steps[0]), steps[1..], end);
      assert history + [steps[0]] + steps[1..] == history + steps;
    }
  }

  /** When the timer fires, or the tool settles, the tool had neither settled nor been denied before. */
  lemma TimeoutAndSettlementComeFirst(s: State, steps: seq<Step>, mid: State, step: Step)
    requires Init(s) && Path(Sound, s, steps, mid) && Enabled(Sound, mid, step)
    requires step.TimerFires? || step.ToolSettles? || step.PolicyDenies?
    ensures PolicyDenies(step.r) !in steps && forall ok :: ToolSettles(step.r, ok) !in steps
  {
    PathKeepsSettled([], s, steps, mid);
    assert [] + steps == steps;
  }
}
