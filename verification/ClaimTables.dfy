/**
  The volatile tables of a process: the runner's active executions and the runtime's reservations.

  Custody of the claim is what makes a task id have one active execution, and the active execution
  is what keeps the reservation of a task whose `run()` has long settled.
*/
module ClaimTables {
  import opened Common
  import opened ClaimStore
  import opened ClaimProtocol
  import opened ClaimSafety

  /** Every active execution is an invoked run of this process and this task id. */
  predicate EntriesOk(s: State) {
    forall p, t :: p in s.procs && t in s.procs[p].active ==>
                     s.procs[p].active[t] in s.runs &&
                     s.runs[s.procs[p].active[t]].proc == p && s.runs[s.procs[p].active[t]].task == t &&
                     !s.runs[s.procs[p].active[t]].exec.NotCalled?
  }

  /** A tool dies only with its process. */
  predicate DeadIsDown(s: State) {
    forall r :: r in s.runs && Up(s, s.runs[r].proc) ==> !s.runs[r].exec.Dead?
  }

  predicate Busy(s: State, r: Rid)
    requires r in s.runs && s.runs[r].proc in s.procs
  {
    !s.runs[r].pc.Ended? || Holds(s.procs[s.runs[r].proc].active, s.runs[r].task, r)
  }

  /** Until shutdown is finished, an accepted task is reserved while `run()` or its tool is under way. */
  predicate ReservedOk(s: State) {
    forall r :: r in s.runs && Up(s, s.runs[r].proc) && s.runs[r].guarded && !s.procs[s.runs[r].proc].finished &&
                Busy(s, r) ==>
                  Holds(s.procs[s.runs[r].proc].inFlight, s.runs[r].task, r)
  }

  /** A process whose shutdown is finished accepts no task. */
  predicate StopOk(s: State) {
    forall p :: p in s.procs && s.procs[p].finished ==> !s.procs[p].started
  }

  predicate Tables(s: State) {
    ActiveOk(s) && EntriesOk(s) && DeadIsDown(s) && ReservedOk(s) && StopOk(s)
  }

  // ---------------------------------------------------------------------------------------
  // Preservation.  Most steps leave the tables alone and only move one run forward.

  predicate SameTables(s: State, s': State) {
    && s'.procs.Keys == s.procs.Keys
    && (forall p :: p in s.procs ==>
          s'.procs[p].up == s.procs[p].up && s'.procs[p].started == s.procs[p].started &&
          s'.procs[p].finished == s.procs[p].finished &&
          s'.procs[p].inFlight == s.procs[p].inFlight && s'.procs[p].active == s.procs[p].active)
  }

  predicate Moves(run: Run, run': Run) {
    && run'.task == run.task && run'.proc == run.proc && run'.guarded == run.guarded
    && (run.pc.Ended? ==> run'.pc.Ended?)
    && (run'.exec == run.exec || (Unsettled(run.exec) && (run'.exec.ToolRunning? || run'.exec.Settled?)))
  }

  lemma MovesKeepTables(s: State, s': State)
    requires Tables(s) && SameTables(s, s') && s'.runs.Keys == s.runs.Keys
    requires forall r :: r in s.runs ==> Moves(s.runs[r], s'.runs[r])
    ensures Tables(s')
  {
    forall r | r in s'.runs && Up(s', s'.runs[r].proc)
      ensures Up(s, s.runs[r].proc) && Moves(s.runs[r], s'.runs[r])
    {
    }
  }

  /** These steps change the place or the tool of one run, and otherwise at most a marker or the store. */
  predicate MovesRun(s: State, s': State, r: Rid) {
    && r in s.runs && r in s'.runs && Moves(s.runs[r], s'.runs[r]) && s'.runs == s.runs[r := s'.runs[r]]
    && SameTables(s, s')
  }

  lemma MovesRunKeepsTables(s: State, s': State, r: Rid)
    requires Tables(s) && MovesRun(s, s', r)
    ensures Tables(s')
  {
    MovesKeepTables(s, s');
  }

  lemma FenceStepMovesRun(a: Authority, s: State, step: Step)
    requires Enabled(a, s, step) && (step.AskFence? || step.FenceReply?)
    ensures MovesRun(s, Next(a, s, step), step.r)
  {
  }

  lemma StoreStepMovesRun(a: Authority, s: State, step: Step)
    requires Enabled(a, s, step) && (step.AskClaim? || step.StoreFails? || step.AskRelease?)
    ensures MovesRun(s, Next(a, s, step), step.r)
  {
  }

  lemma OutcomeStepMovesRun(a: Authority, s: State, step: Step)
    requires Enabled(a, s, step) && (step.Observe? || step.Append?)
    ensures MovesRun(s, Next(a, s, step), step.r)
  {
  }

  lemma EndMovesRun(a: Authority, s: State, step: Step)
    requires Enabled(a, s, step)
    requires step.TimerFires? || step.ReleaseReply? || (step.ClaimReply? && !s.runs[step.r].pc.won)
    ensures MovesRun(s, Next(a, s, step), step.r)
  {
  }

  lemma ToolStepMovesRun(a: Authority, s: State, step: Step)
    requires Enabled(a, s, step) && (step.PolicyDenies? || step.ToolStarts? || step.ToolSettles?)
    ensures MovesRun(s, Next(a, s, step), step.r)
  {
  }

  predicate OnlyMoves(step: Step) {
    step.AskFence? || step.FenceReply? || step.AskClaim? || step.StoreFails? || step.TimerFires? || step.Observe? ||
    step.Append? || step.AskRelease? || step.ReleaseReply? || step.PolicyDenies? || step.ToolStarts? || step.ToolSettles?
  }

  lemma MoveMovesRun(a: Authority, s: State, step: Step)
    requires Enabled(a, s, step) && OnlyMoves(step)
    ensures MovesRun(s, Next(a, s, step), step.r)
  {
    if step.AskFence? || step.FenceReply? {
      FenceStepMovesRun(a, s, step);
    } else if step.AskClaim? || step.StoreFails? || step.AskRelease? {
      StoreStepMovesRun(a, s, step);
    } else if step.Observe? || step.Append? {
      OutcomeStepMovesRun(a, s, step);
    } else if step.TimerFires? || step.ReleaseReply? {
      EndMovesRun(a, s, step);
    } else {
      ToolStepMovesRun(a, s, step);
    }
  }

  lemma MoveKeepsTables(a: Authority, s: State, step: Step)
    requires Tables(s) && Enabled(a, s, step) && OnlyMoves(step)
    ensures Tables(Next(a, s, step))
  {
    MoveMovesRun(a, s, step);
    MovesRunKeepsTables(s, Next(a, s, step), step.r);
  }

  lemma CheckMovesNothing(a: Authority, s: State, step: Step)
    requires Enabled(a, s, step)
    requires step.Reconcile? || step.AuthorityReply? || step.Recheck? || step.RecFails?
    ensures Next(a, s, step).runs == s.runs && SameTables(s, Next(a, s, step))
  {
  }

  lemma InspectMovesNothing(a: Authority, s: State, q: Qid)
    requires Enabled(a, s, Inspect(q))
    ensures Next(a, s, Inspect(q)).runs == s.runs && SameTables(s, Next(a, s, Inspect(q)))
  {
  }

  lemma MatchMovesNothing(a: Authority, s: State, q: Qid)
    requires Enabled(a, s, AskMatch(q))
    ensures Next(a, s, AskMatch(q)).runs == s.runs && SameTables(s, Next(a, s, AskMatch(q)))
  {
  }

  lemma MatchReplyMovesNothing(a: Authority, s: State, q: Qid)
    requires Enabled(a, s, MatchReply(q))
    ensures Next(a, s, MatchReply(q)).runs == s.runs && SameTables(s, Next(a, s, MatchReply(q)))
  {
  }

  predicate IsRecStep(step: Step) {
    step.Reconcile? || step.Inspect? || step.AuthorityReply? || step.Recheck? || step.AskMatch? ||
    step.MatchReply? || step.RecFails?
  }

  lemma RecStepMovesNothing(a: Authority, s: State, step: Step)
    requires Enabled(a, s, step) && IsRecStep(step)
    ensures Next(a, s, step).runs == s.runs && SameTables(s, Next(a, s, step))
  {
    if step.Inspect? {
      InspectMovesNothing(a, s, step.q);
    } else if step.AskMatch? {
      MatchMovesNothing(a, s, step.q);
    } else if step.MatchReply? {
      MatchReplyMovesNothing(a, s, step.q);
    } else {
      CheckMovesNothing(a, s, step);
    }
  }

  lemma ProcStepKeepsTables(a: Authority, s: State, step: Step)
    requires Inv(s) && Tables(s) && Enabled(a, s, step)
    requires step.Boot? || step.BeginStop? || step.FinishStop? || step.Crash?
    ensures Tables(Next(a, s, step))
  {
  }

  lemma AcceptKeepsTables(a: Authority, s: State, step: Step)
    requires Inv(s) && Tables(s) && Enabled(a, s, step) && (step.ExecuteTask? || step.RunDirectly?)
    ensures Tables(Next(a, s, step))
  {
  }

  /** The won claim is exclusive, so the entry it overwrites belongs to no unsettled invocation. */
  lemma ClaimReplyKeepsTables(a: Authority, s: State, r: Rid)
    requires Inv(s) && Tables(s) && Enabled(a, s, ClaimReply(r)) && s.runs[r].pc.won
    ensures Tables(Next(a, s, ClaimReply(r)))
  {
    var s' := Next(a, s, ClaimReply(r));
    assert Custodial(s, s.runs[r]);
    forall x | x in s'.runs && Up(s', s'.runs[x].proc) && Unsettled(s'.runs[x].exec)
      ensures Holds(s'.procs[s'.runs[x].proc].active, s'.runs[x].task, x)
    {
      if x != r && s.runs[x].task == s.runs[r].task {
        CustodyIsExclusive(s, x, r);
      }
    }
  }

  lemma UnreserveKeepsTables(a: Authority, s: State, r: Rid)
    requires Inv(s) && Tables(s) && Enabled(a, s, Unreserve(r))
    ensures Tables(Next(a, s, Unreserve(r)))
  {
  }

  lemma ForgetKeepsTables(a: Authority, s: State, r: Rid)
    requires Inv(s) && Tables(s) && Enabled(a, s, ForgetActive(r))
    ensures Tables(Next(a, s, ForgetActive(r)))
  {
  }

  lemma DeathKeepsTables(a: Authority, s: State, r: Rid)
    requires Tables(s) && Enabled(a, s, ToolDies(r))
    ensures Tables(Next(a, s, ToolDies(r)))
  {
  }

  lemma StepKeepsTables(a: Authority, s: State, step: Step)
    requires Inv(s) && Tables(s) && Enabled(a, s, step)
    ensures Tables(Next(a, s, step))
  {
    if OnlyMoves(step) {
      MoveKeepsTables(a, s, step);
    } else if step.Boot? || step.BeginStop? || step.FinishStop? || step.Crash? {
      ProcStepKeepsTables(a, s, step);
    } else if step.ExecuteTask? || step.RunDirectly? {
      AcceptKeepsTables(a, s, step);
    } else if step.ClaimReply? {
      if s.runs[step.r].pc.won {
        ClaimReplyKeepsTables(a, s, step.r);
      } else {
        EndMovesRun(a, s, step);
        MovesRunKeepsTables(s, Next(a, s, step), step.r);
      }
    } else if step.Unreserve? {
      UnreserveKeepsTables(a, s, step.r);
    } else if step.ForgetActive? {
      ForgetKeepsTables(a, s, step.r);
    } else if step.ToolDies? {
      DeathKeepsTables(a, s, step.r);
    } else {
      RecStepMovesNothing(a, s, step);
      MovesKeepTables(s, Next(a, s, step));
    }
  }

  // ---------------------------------------------------------------------------------------
  // What a reservation refuses, and how it ends

  lemma BusyTaskIsRefused(a: Authority, s: State, r: Rid, x: nat, guarded: bool)
    requires Tables(s) && r in s.runs && s.runs[r].guarded && Up(s, s.runs[r].proc)
    requires !s.runs[r].pc.Ended? || Unsettled(s.runs[r].exec)
    ensures !s.procs[s.runs[r].proc].finished ==> Holds(s.procs[s.runs[r].proc].inFlight, s.runs[r].task, r)
    ensures !Enabled(a, s, ExecuteTask(s.runs[r].proc, s.runs[r].task, x))
    ensures guarded || Unsettled(s.runs[r].exec) ==>
              !Enabled(a, s, Reconcile(s.runs[r].proc, s.runs[r].task, x, guarded))
  {
    assert Busy(s, r);
  }

  lemma OtherStepEnds(a: Authority, s: State, step: Step, p: Pid, t: TaskId, r: Rid)
    requires Tables(s) && Enabled(a, s, step) && !OnlyMoves(step) && !IsRecStep(step)
    requires p in s.procs && Holds(s.procs[p].inFlight, t, r)
    requires p in Next(a, s, step).procs && !Holds(Next(a, s, step).procs[p].inFlight, t, r)
    ensures step == FinishStop(p) || (step == Unreserve(r) && s.runs[r].pc.Ended? && !Unsettled(s.runs[r].exec))
  {
    if step.Unreserve? {
      assert step.r == r;
    }
  }

  /** A reservation goes when its own run has left with its tool settled, or with the shutdown. */
  lemma ReservationEnds(a: Authority, s: State, step: Step, p: Pid, t: TaskId, r: Rid)
    requires Tables(s) && Enabled(a, s, step)
    requires p in s.procs && Holds(s.procs[p].inFlight, t, r)
    requires p in Next(a, s, step).procs && !Holds(Next(a, s, step).procs[p].inFlight, t, r)
    ensures step == FinishStop(p) || (step == Unreserve(r) && s.runs[r].pc.Ended? && !Unsettled(s.runs[r].exec))
  {
    if OnlyMoves(step) {
      MoveMovesRun(a, s, step);
    } else if IsRecStep(step) {
      RecStepMovesNothing(a, s, step);
    } else {
      OtherStepEnds(a, s, step, p, t, r);
    }
  }
}
