/** What the task-claim protocol guarantees over every run with a sound authority. */
module ClaimTheorems {
  import opened Common
  import opened ClaimStore
  import opened ClaimProtocol
  import opened ClaimSafety
  import opened ClaimTables

  lemma {:induction false} PathKeepsInv(s: State, steps: seq<Step>, end: State)
    requires Inv(s) && TraceInv(s) && Tables(s) && Path(Sound, s, steps, end)
    ensures Inv(end) && TraceInv(end) && Tables(end)
    decreases |steps|
  {
    if steps != [] {
      StepKeepsInv(s, steps[0]);
      StepKeepsTrace(s, steps[0]);
      StepKeepsTables(Sound, s, steps[0]);
      PathKeepsInv(Next(Sound, s, steps[0]), steps[1..], end);
    }
  }

  lemma InvIsSafe(s: State)
    requires Inv(s)
    ensures !Overlap(s)
  {
    forall r1, r2 | r1 in s.runs && r2 in s.runs && s.runs[r1].task == s.runs[r2].task &&
                    s.runs[r1].exec.ToolRunning? && s.runs[r2].exec.ToolRunning?
      ensures r1 == r2
    {
      CustodyIsExclusive(s, r1, r2);
    }
  }

  /** In every reachable state, no two tool invocations of one task id overlap. */
  lemma InvocationsNeverOverlap(s: State, steps: seq<Step>, end: State)
    requires Init(s) && Path(Sound, s, steps, end)
    ensures !Overlap(end)
  {
    PathKeepsInv(s, steps, end);
    InvIsSafe(end);
  }

  /**
    Between any two invocations of one task id, the earlier generation's tool was rejected before
    its deadline, or its result was persisted, or a reconciliation released exactly that generation.
  */
  lemma RetriesHaveAReason(s: State, steps: seq<Step>, end: State, i: nat, j: nat)
    requires Init(s) && Path(Sound, s, steps, end)
    requires i < j < |end.trace| && end.trace[i].Invoked? && end.trace[j].Invoked?
    requires end.trace[i].task == end.trace[j].task
    ensures exists k :: i < k < j && IsReason(end.trace[k], end.trace[i].task, end.trace[i].gen)
  {
    PathKeepsInv(s, steps, end);
  }

  lemma OtherStepsKeepClaims(s: State, step: Step, t: TaskId, g: nat)
    requires Inv(s) && Enabled(Sound, s, step) && Matches(s.claims, t, g)
    requires !step.AskRelease? && !step.AskMatch?
    ensures Matches(Next(Sound, s, step).claims, t, g)
  {
    if IsQuiet(step) {
      QuietStep(Sound, s, step);
    }
  }

  lemma ReleaseDropsOwnClaim(s: State, r: Rid, t: TaskId, g: nat)
    requires Inv(s) && Enabled(Sound, s, AskRelease(r)) && Matches(s.claims, t, g)
    ensures Matches(Next(Sound, s, AskRelease(r)).claims, t, g) || (s.runs[r].task == t && s.runs[r].gen == Some(g))
  {
    assert Custodial(s, s.runs[r]);
  }

  lemma MatchDropsOwnClaim(a: Authority, s: State, q: Qid, t: TaskId, g: nat)
    requires Enabled(a, s, AskMatch(q)) && Matches(s.claims, t, g)
    ensures Matches(Next(a, s, AskMatch(q)).claims, t, g) || (s.recs[q].task == t && s.recs[q].pc.gen == g)
  {
  }

  /** A claim disappears only by its own run's release or by a reconciliation of its own generation. */
  lemma ClaimDroppedOnlyForItsGeneration(s: State, steps: seq<Step>, mid: State, step: Step, t: TaskId, g: nat)
    requires Init(s) && Path(Sound, s, steps, mid) && Enabled(Sound, mid, step)
    requires Matches(mid.claims, t, g) && !Matches(Next(Sound, mid, step).claims, t, g)
    ensures (step.AskRelease? && mid.runs[step.r].task == t && mid.runs[step.r].gen == Some(g)) ||
            (step.AskMatch? && mid.recs[step.q].task == t && mid.recs[step.q].pc.gen == g)
  {
    PathKeepsInv(s, steps, mid);
    if step.AskRelease? {
      ReleaseDropsOwnClaim(mid, step.r, t, g);
    } else if step.AskMatch? {
      MatchDropsOwnClaim(Sound, mid, step.q, t, g);
    } else {
      OtherStepsKeepClaims(mid, step, t, g);
    }
  }

  lemma LegacyStep(s: State, step: Step, t: TaskId)
    requires Inv(s) && Enabled(Sound, s, step) && t in s.claims && s.claims[t].Legacy?
    ensures t in Next(Sound, s, step).claims && Next(Sound, s, step).claims[t] == s.claims[t]
  {
    if IsQuiet(step) {
      QuietStep(Sound, s, step);
    } else if step.AskRelease? {
      assert Custodial(s, s.runs[step.r]);
    }
  }

  /** A record without a generation is never removed, so its task id is never invoked. */
  lemma {:induction false} LegacyClaimStays(s: State, steps: seq<Step>, end: State, t: TaskId)
    requires Inv(s) && TraceInv(s) && Tables(s) && Path(Sound, s, steps, end) && t in s.claims && s.claims[t].Legacy?
    requires forall i :: 0 <= i < |s.trace| && s.trace[i].Invoked? ==> s.trace[i].task != t
    ensures t in end.claims && end.claims[t] == s.claims[t]
    ensures forall i :: 0 <= i < |end.trace| && end.trace[i].Invoked? ==> end.trace[i].task != t
    decreases |steps|
  {
    if steps != [] {
      var s' := Next(Sound, s, steps[0]);
      StepKeepsInv(s, steps[0]);
      StepKeepsTrace(s, steps[0]);
      StepKeepsTables(Sound, s, steps[0]);
      LegacyStep(s, steps[0], t);
      LegacyNotInvoked(s, steps[0], t);
      LegacyClaimStays(s', steps[1..], end, t);
    }
  }

  lemma LegacyNotInvoked(s: State, step: Step, t: TaskId)
    requires Inv(s) && Enabled(Sound, s, step) && t in s.claims && s.claims[t].Legacy?
    requires forall i :: 0 <= i < |s.trace| && s.trace[i].Invoked? ==> s.trace[i].task != t
    ensures var s' := Next(Sound, s, step);
            forall i :: 0 <= i < |s'.trace| && s'.trace[i].Invoked? ==> s'.trace[i].task != t
  {
    if IsQuiet(step) {
      QuietStep(Sound, s, step);
    } else if step.ToolStarts? {
      assert Custodial(s, s.runs[step.r]);
    }
  }

  lemma LegacyClaimNeverRemoved(s: State, steps: seq<Step>, end: State, t: TaskId)
    requires Init(s) && Path(Sound, s, steps, end) && t in s.claims && s.claims[t].Legacy?
    ensures t in end.claims && end.claims[t] == s.claims[t]
    ensures forall i :: 0 <= i < |end.trace| && end.trace[i].Invoked? ==> end.trace[i].task != t
  {
    LegacyClaimStays(s, steps, end, t);
  }

  /**
    A task of a running process stays reserved until its `run()` has left and its tool has settled, or
    until shutdown is finished; neither a second task of this id nor a reconciliation gets past that.
  */
  lemma TimedOutTaskStaysReserved(s: State, steps: seq<Step>, end: State, r: Rid)
    requires Init(s) && Path(Sound, s, steps, end)
    requires r in end.runs && end.runs[r].guarded && Up(end, end.runs[r].proc)
    requires !end.runs[r].pc.Ended? || Unsettled(end.runs[r].exec)
    ensures !end.procs[end.runs[r].proc].finished ==> Holds(end.procs[end.runs[r].proc].inFlight, end.runs[r].task, r)
    ensures forall x :: !Enabled(Sound, end, ExecuteTask(end.runs[r].proc, end.runs[r].task, x))
    ensures forall q :: !Enabled(Sound, end, Reconcile(end.runs[r].proc, end.runs[r].task, q, true))
    ensures Unsettled(end.runs[r].exec) ==>
              forall q :: !Enabled(Sound, end, Reconcile(end.runs[r].proc, end.runs[r].task, q, false))
  {
    PathKeepsInv(s, steps, end);
    forall x ensures !Enabled(Sound, end, ExecuteTask(end.runs[r].proc, end.runs[r].task, x)) {
      BusyTaskIsRefused(Sound, end, r, x, true);
    }
    forall q, guarded | guarded || Unsettled(end.runs[r].exec)
      ensures !Enabled(Sound, end, Reconcile(end.runs[r].proc, end.runs[r].task, q, guarded))
    {
      BusyTaskIsRefused(Sound, end, r, q, guarded);
    }
  }

  /** No step takes a reservation away but the shutdown's last, or the release after `run()` and its tool. */
  lemma ReservationEndsOnlyAfterTool(s: State, steps: seq<Step>, mid: State, step: Step, p: Pid, t: TaskId, r: Rid)
    requires Init(s) && Path(Sound, s, steps, mid) && Enabled(Sound, mid, step)
    requires p in mid.procs && Holds(mid.procs[p].inFlight, t, r)
    requires p in Next(Sound, mid, step).procs && !Holds(Next(Sound, mid, step).procs[p].inFlight, t, r)
    ensures step == FinishStop(p) || (step == Unreserve(r) && mid.runs[r].pc.Ended? && !Unsettled(mid.runs[r].exec))
  {
    PathKeepsInv(s, steps, mid);
    ReservationEnds(Sound, mid, step, p, t, r);
  }
}
