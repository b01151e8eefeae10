/**
  Safety of the task-claim protocol over every run of the step machine with a sound authority.

  The invariant: a run whose tool may still run, or which may still release by task id, finds its
  own generation in the store.  Everything else follows from it.
*/
module ClaimSafety {
  import opened Common
  import opened ClaimStore
  import opened ClaimProtocol

  // ---------------------------------------------------------------------------------------
  // The invariant

  predicate Called(exec: Exec) {
    !exec.NotCalled? && !exec.PolicyPending?
  }

  predicate WellFormed(run: Run) {
    && (run.pc.Fenced? || run.pc.FenceAnswered? || run.pc.Claiming? || run.pc == ClaimAnswered(false) ==>
          run.exec.NotCalled? && run.gen.None?)
    && (run.pc == ClaimAnswered(true) ==> run.exec.NotCalled? && run.gen.Some?)
    && (run.pc.Executing? ==> !run.exec.NotCalled?)
    && (run.pc.Persisting? || run.pc.Releasing? || run.pc.Released? ==> run.exec.Settled?)
    && (!run.exec.NotCalled? ==> run.gen.Some?)
  }

  /** A confirmed reconciliation that may still remove the claim of this generation. */
  function ConfirmedGen(rec: Rec): Option<nat> {
    match rec.pc
    case Confirmed(g) => Some(g)
    case Matching(g) => Some(g)
    case _ => None
  }

  predicate RunsOk(s: State) {
    && (forall r :: r in s.runs ==>
          WellFormed(s.runs[r]) && s.runs[r].proc in s.procs &&
          (s.runs[r].gen.Some? ==> s.runs[r].gen.value < s.nextGen))
    && (forall r1, r2 :: r1 in s.runs && r2 in s.runs && s.runs[r1].gen.Some? && s.runs[r1].gen == s.runs[r2].gen
          ==> r1 == r2)
  }

  predicate GensOk(s: State) {
    && (forall t :: t in s.claims && s.claims[t].Current? ==> s.claims[t].id < s.nextGen)
    && (forall q :: q in s.recs ==>
          (s.recs[q].pc.Verifying? ==> s.recs[q].pc.gen < s.nextGen) &&
          (ConfirmedGen(s.recs[q]).Some? ==> ConfirmedGen(s.recs[q]).value < s.nextGen))
  }

  predicate Fence(s: State) {
    forall r :: r in s.runs && Custodial(s, s.runs[r]) ==>
                  s.runs[r].gen.Some? && Matches(s.claims, s.runs[r].task, s.runs[r].gen.value)
  }

  predicate ConfirmedOk(s: State) {
    forall q, r ::
      q in s.recs && r in s.runs && ConfirmedGen(s.recs[q]).Some? &&
      OfClaim(s.runs[r], s.recs[q].task, ConfirmedGen(s.recs[q]).value) && Custodial(s, s.runs[r]) ==>
        s.recs[q].pc.Confirmed? && SeenLocally(s.recs[q], s.runs[r])
  }

  predicate Unsettled(exec: Exec) {
    exec.PolicyPending? || exec.ToolRunning?
  }

  predicate Holds(table: map<TaskId, Rid>, t: TaskId, r: Rid) {
    t in table && table[t] == r
  }

  /** An unsettled invocation is in the table of active executions of its process. */
  predicate ActiveOk(s: State) {
    forall r :: r in s.runs && Up(s, s.runs[r].proc) && Unsettled(s.runs[r].exec) ==>
                  Holds(s.procs[s.runs[r].proc].active, s.runs[r].task, r)
  }

  predicate Inv(s: State) {
    RunsOk(s) && GensOk(s) && Fence(s) && ConfirmedOk(s)
  }

  /** Two custodial runs never share a task id: the heart of the safety argument. */
  lemma CustodyIsExclusive(s: State, r1: Rid, r2: Rid)
    requires Inv(s) && r1 in s.runs && r2 in s.runs
    requires Custodial(s, s.runs[r1]) && Custodial(s, s.runs[r2]) && s.runs[r1].task == s.runs[r2].task
    ensures r1 == r2
  {
  }

  // ---------------------------------------------------------------------------------------
  // Preservation.  Most steps touch neither the store nor who has custody.

  predicate RunQuiet(s: State, s': State, r: Rid)
    requires r in s'.runs
  {
    var run' := s'.runs[r];
    && WellFormed(run') && run'.proc in s'.procs
    && if r in s.runs then
         var run := s.runs[r];
         && run'.task == run.task && run'.gen == run.gen && run'.proc == run.proc
         && (Custodial(s', run') ==> Custodial(s, run))
         && (run.pc.Ended? ==> run'.pc.Ended?)
         && (Called(run.exec) ==> Called(run'.exec))
         && (Up(s', run'.proc) && run'.pc.Releasing? ==> Up(s, run.proc) && run.pc.Releasing?)
       else
         run'.gen.None? && !Custodial(s', run')
  }

  predicate Quiet(s: State, s': State) {
    && s'.claims == s.claims && s'.nextGen == s.nextGen && s'.trace == s.trace
    && (forall r :: r in s.runs ==> r in s'.runs)
    && (forall r :: r in s'.runs ==> RunQuiet(s, s', r))
    && (forall q :: q in s'.recs ==>
          (s'.recs[q].pc.Verifying? ==> s'.recs[q].pc.gen < s.nextGen) &&
          (ConfirmedGen(s'.recs[q]).Some? ==> q in s.recs && s'.recs[q] == s.recs[q]))
  }

  lemma QuietKeepsInv(s: State, s': State)
    requires Inv(s) && Quiet(s, s')
    ensures Inv(s')
  {
    forall r | r in s'.runs ensures RunQuiet(s, s', r) {}
    forall q, r | q in s'.recs && r in s'.runs && ConfirmedGen(s'.recs[q]).Some? &&
                  OfClaim(s'.runs[r], s'.recs[q].task, ConfirmedGen(s'.recs[q]).value) && Custodial(s', s'.runs[r])
      ensures s'.recs[q].pc.Confirmed? && SeenLocally(s'.recs[q], s'.runs[r])
    {
      assert RunQuiet(s, s', r);
    }
  }

  lemma QuietTrans(s: State, s1: State, s2: State)
    requires Quiet(s, s1) && Quiet(s1, s2)
    ensures Quiet(s, s2)
  {
    forall r | r in s2.runs ensures RunQuiet(s, s2, r) {
      assert RunQuiet(s1, s2, r);
      assert r in s1.runs ==> RunQuiet(s, s1, r);
    }
  }

  lemma SameRunIsQuiet(s: State, s': State, r: Rid)
    requires RunsOk(s) && r in s.runs && r in s'.runs && s'.runs[r] == s.runs[r]
    requires s.runs[r].proc in s'.procs && Up(s', s.runs[r].proc) == Up(s, s.runs[r].proc)
    ensures RunQuiet(s, s', r)
  {
  }

  lemma RecUpdateIsQuiet(s: State, q: Qid, rec: Rec)
    requires Inv(s)
    requires rec.pc.Verifying? ==> rec.pc.gen < s.nextGen
    requires ConfirmedGen(rec).Some? ==> q in s.recs && s.recs[q] == rec
    ensures Quiet(s, s.(recs := s.recs[q := rec]))
  {
    var s' := s.(recs := s.recs[q := rec]);
    forall r | r in s'.runs ensures RunQuiet(s, s', r) {
      SameRunIsQuiet(s, s', r);
    }
  }

  lemma ProcUpdateIsQuiet(s: State, p: Pid, proc: Proc)
    requires Inv(s) && (p in s.procs ==> proc.up == s.procs[p].up)
    ensures Quiet(s, SetProc(s, p, proc))
  {
    var s' := SetProc(s, p, proc);
    forall r | r in s'.runs ensures RunQuiet(s, s', r) {
      SameRunIsQuiet(s, s', r);
    }
  }

  lemma RunUpdateIsQuiet(s: State, r: Rid, run: Run)
    requires Inv(s)
    requires RunQuiet(s, s.(runs := s.runs[r := run]), r)
    ensures Quiet(s, s.(runs := s.runs[r := run]))
  {
    var s' := s.(runs := s.runs[r := run]);
    forall x | x in s'.runs ensures RunQuiet(s, s', x) {
      if x != r {
        SameRunIsQuiet(s, s', x);
      }
    }
  }

  lemma CrashIsQuiet(s: State, p: Pid)
    requires Inv(s) && Up(s, p)
    ensures Quiet(s, SetProc(s, p, s.procs[p].(up := false)))
  {
  }

  /** A step that changes one run and then one process table. */
  lemma RunThenProc(s: State, r: Rid, run: Run, p: Pid, proc: Proc)
    requires Inv(s) && RunQuiet(s, s.(runs := s.runs[r := run]), r)
    requires p in s.procs && proc.up == s.procs[p].up
    ensures Quiet(s, SetProc(s.(runs := s.runs[r := run]), p, proc))
  {
    var s1 := s.(runs := s.runs[r := run]);
    RunUpdateIsQuiet(s, r, run);
    QuietKeepsInv(s, s1);
    ProcUpdateIsQuiet(s1, p, proc);
    QuietTrans(s, s1, SetProc(s1, p, proc));
  }

  predicate IsQuiet(step: Step) {
    !step.AskClaim? && !step.Observe? && !step.Append? && !step.AskRelease? && !step.ToolStarts? &&
    !step.AuthorityReply? && !step.Recheck? && !step.AskMatch?
  }

  lemma TableStepIsQuiet(a: Authority, s: State, step: Step)
    requires Inv(s) && Enabled(a, s, step)
    requires step.Boot? || step.BeginStop? || step.FinishStop? || step.Crash? || step.Unreserve? || step.ForgetActive?
    ensures Quiet(s, Next(a, s, step))
  {
    var s' := Next(a, s, step);
    match step {
      case Boot(p) => ProcUpdateIsQuiet(s, p, s'.procs[p]);
      case BeginStop(p) => ProcUpdateIsQuiet(s, p, s'.procs[p]);
      case FinishStop(p) => ProcUpdateIsQuiet(s, p, s'.procs[p]);
      case Crash(p) => CrashIsQuiet(s, p);
      case Unreserve(r) =>
        var p := s.runs[r].proc;
        assert s' == SetProc(s, p, s'.procs[p]);
        ProcUpdateIsQuiet(s, p, s'.procs[p]);
      case ForgetActive(r) =>
        var p := s.runs[r].proc;
        assert s' == SetProc(s, p, s'.procs[p]);
        ProcUpdateIsQuiet(s, p, s'.procs[p]);
    }
  }

  lemma RecStepIsQuiet(a: Authority, s: State, step: Step)
    requires Inv(s) && Enabled(a, s, step)
    requires step.Reconcile? || step.RecFails?
    ensures Quiet(s, Next(a, s, step))
  {
    match step {
      case Reconcile(p, t, q, _) => RecUpdateIsQuiet(s, q, Rec(p, t, Inspecting));
      case RecFails(q) => RecUpdateIsQuiet(s, q, s.recs[q].(pc := Closed));
    }
  }

  lemma InspectIsQuiet(a: Authority, s: State, q: Qid)
    requires Inv(s) && Enabled(a, s, Inspect(q))
    ensures Quiet(s, Next(a, s, Inspect(q)))
  {
    RecUpdateIsQuiet(s, q, s.recs[q].(pc := Closed));
    var t := s.recs[q].task;
    if t in s.claims && s.claims[t].Current? {
      RecUpdateIsQuiet(s, q, s.recs[q].(pc := Verifying(s.claims[t].id)));
    }
  }

  lemma MatchReplyIsQuiet(a: Authority, s: State, q: Qid)
    requires Inv(s) && Enabled(a, s, MatchReply(q))
    ensures Quiet(s, Next(a, s, MatchReply(q)))
  {
    var s1 := SetRec(s, q, Closed);
    RecUpdateIsQuiet(s, q, s1.recs[q]);
    if s.recs[q].pc.released {
      var p, t := s.recs[q].proc, s.recs[q].task;
      QuietKeepsInv(s, s1);
      ProcUpdateIsQuiet(s1, p, s1.procs[p].(unknown := s1.procs[p].unknown - {t}));
      QuietTrans(s, s1, Unmark(s1, p, t));
    }
  }

  lemma RunStepIsQuiet(a: Authority, s: State, step: Step)
    requires Inv(s) && Enabled(a, s, step)
    requires step.RunDirectly? || step.AskFence? || step.StoreFails?
    ensures Quiet(s, Next(a, s, step))
  {
    var s' := Next(a, s, step);
    RunUpdateIsQuiet(s, step.r, s'.runs[step.r]);
  }

  lemma ToolStepIsQuiet(a: Authority, s: State, step: Step)
    requires Inv(s) && Enabled(a, s, step)
    requires step.PolicyDenies? || step.ToolSettles? || step.ToolDies?
    ensures Quiet(s, Next(a, s, step))
  {
    var s' := Next(a, s, step);
    match step {
      case PolicyDenies(r) => RunUpdateIsQuiet(s, r, s'.runs[r]);
      case ToolSettles(r, _) => RunUpdateIsQuiet(s, r, s'.runs[r]);
      case ToolDies(r) => RunUpdateIsQuiet(s, r, s'.runs[r]);
    }
  }

  lemma ExecuteTaskIsQuiet(a: Authority, s: State, step: Step)
    requires Inv(s) && Enabled(a, s, step) && step.ExecuteTask?
    ensures Quiet(s, Next(a, s, step))
  {
    var s' := Next(a, s, step);
    RunThenProc(s, step.r, s'.runs[step.r], step.p, s'.procs[step.p]);
  }

  lemma FenceReplyIsQuiet(a: Authority, s: State, r: Rid)
    requires Inv(s) && Enabled(a, s, FenceReply(r))
    ensures Quiet(s, Next(a, s, FenceReply(r)))
  {
    var p, t := s.runs[r].proc, s.runs[r].task;
    if s.runs[r].pc.claimed {
      RunUpdateIsQuiet(s, r, s.runs[r].(pc := Ended));
    } else {
      RunThenProc(s, r, s.runs[r].(pc := Claiming), p, s.procs[p].(unknown := s.procs[p].unknown - {t}));
    }
  }

  lemma ClaimReplyIsQuiet(a: Authority, s: State, r: Rid)
    requires Inv(s) && Enabled(a, s, ClaimReply(r))
    ensures Quiet(s, Next(a, s, ClaimReply(r)))
  {
    var p, t := s.runs[r].proc, s.runs[r].task;
    if s.runs[r].pc.won {
      RunThenProc(s, r, s.runs[r].(pc := Executing, exec := PolicyPending), p,
                  s.procs[p].(active := s.procs[p].active[t := r]));
    } else {
      RunThenProc(s, r, s.runs[r].(pc := Ended), p, s.procs[p].(unknown := s.procs[p].unknown + {t}));
    }
  }

  lemma EndIsQuiet(a: Authority, s: State, step: Step)
    requires Inv(s) && Enabled(a, s, step) && (step.TimerFires? || step.ReleaseReply?)
    ensures Quiet(s, Next(a, s, step))
  {
    var r := step.r;
    var p, t := s.runs[r].proc, s.runs[r].task;
    RunThenProc(s, r, s.runs[r].(pc := Ended), p, s.procs[p].(unknown := s.procs[p].unknown + {t}));
    RunThenProc(s, r, s.runs[r].(pc := Ended), p, s.procs[p].(unknown := s.procs[p].unknown - {t}));
  }

  lemma QuietStep(a: Authority, s: State, step: Step)
    requires Inv(s) && Enabled(a, s, step) && IsQuiet(step)
    ensures Quiet(s, Next(a, s, step))
  {
    if step.Boot? || step.BeginStop? || step.FinishStop? || step.Crash? || step.Unreserve? || step.ForgetActive? {
      TableStepIsQuiet(a, s, step);
    } else if step.Reconcile? || step.RecFails? {
      RecStepIsQuiet(a, s, step);
    } else if step.Inspect? {
      InspectIsQuiet(a, s, step.q);
    } else if step.MatchReply? {
      MatchReplyIsQuiet(a, s, step.q);
    } else if step.ExecuteTask? {
      ExecuteTaskIsQuiet(a, s, step);
    } else if step.FenceReply? {
      FenceReplyIsQuiet(a, s, step.r);
    } else if step.ClaimReply? {
      ClaimReplyIsQuiet(a, s, step.r);
    } else if step.TimerFires? || step.ReleaseReply? {
      EndIsQuiet(a, s, step);
    } else if step.RunDirectly? || step.AskFence? || step.StoreFails? {
      RunStepIsQuiet(a, s, step);
    } else {
      ToolStepIsQuiet(a, s, step);
    }
  }

  // ---------------------------------------------------------------------------------------
  // The steps that change the store, the trace or what is confirmed

  lemma ClaimKeepsInv(a: Authority, s: State, r: Rid, at: int)
    requires Inv(s) && Enabled(a, s, AskClaim(r, at))
    ensures Inv(Next(a, s, AskClaim(r, at)))
  {
    var s' := Next(a, s, AskClaim(r, at));
    if s.runs[r].task in s.claims {
      RunUpdateIsQuiet(s, r, s'.runs[r]);
      QuietKeepsInv(s, s');
    } else {
      forall x | x in s'.runs && Custodial(s', s'.runs[x])
        ensures s'.runs[x].gen.Some? && Matches(s'.claims, s'.runs[x].task, s'.runs[x].gen.value)
      {
        assert x != r ==> Custodial(s, s.runs[x]);
      }
    }
  }

  /** Observe and Append only move a run between two custodial places, or end it. */
  lemma OutcomeKeepsInv(s: State, r: Rid, pc: Pc, proc: Proc, trace: seq<Event>)
    requires Inv(s) && AtPc(s, r) && s.runs[r].exec.Settled?
    requires Custodial(s, s.runs[r]) && (pc.Persisting? || pc.Releasing? || pc.Ended?)
    requires proc.up
    ensures Inv(SetProc(SetPc(s, r, pc), s.runs[r].proc, proc).(trace := trace))
  {
    var s' := SetProc(SetPc(s, r, pc), s.runs[r].proc, proc).(trace := trace);
    forall x | x in s'.runs && Custodial(s', s'.runs[x])
      ensures s'.runs[x].gen.Some? && Matches(s'.claims, s'.runs[x].task, s'.runs[x].gen.value)
    {
      assert Custodial(s, s.runs[x]);
    }
  }

  lemma ObserveKeepsInv(a: Authority, s: State, r: Rid)
    requires Inv(s) && Enabled(a, s, Observe(r))
    ensures Inv(Next(a, s, Observe(r)))
  {
    var s' := Next(a, s, Observe(r));
    var p := s.runs[r].proc;
    OutcomeKeepsInv(s, r, s'.runs[r].pc, s.procs[p], s'.trace);
    assert s'.procs == s.procs[p := s.procs[p]];
  }

  lemma AppendKeepsInv(a: Authority, s: State, r: Rid, ok: bool)
    requires Inv(s) && Enabled(a, s, Append(r, ok))
    ensures Inv(Next(a, s, Append(r, ok)))
  {
    var s' := Next(a, s, Append(r, ok));
    var p := s.runs[r].proc;
    OutcomeKeepsInv(s, r, s'.runs[r].pc, s'.procs[p], s'.trace);
    assert s'.procs == s.procs[p := s'.procs[p]];
  }

  /** The release is by task id alone; exclusive custody is what makes it remove only its own claim. */
  lemma ReleaseKeepsInv(a: Authority, s: State, r: Rid)
    requires Inv(s) && Enabled(a, s, AskRelease(r))
    ensures Inv(Next(a, s, AskRelease(r)))
  {
    var s' := Next(a, s, AskRelease(r));
    forall x | x in s'.runs && Custodial(s', s'.runs[x])
      ensures s'.runs[x].gen.Some? && Matches(s'.claims, s'.runs[x].task, s'.runs[x].gen.value)
    {
      assert x != r && Custodial(s, s.runs[x]);
      if s.runs[x].task == s.runs[r].task {
        CustodyIsExclusive(s, x, r);
      }
    }
  }

  lemma StartKeepsInv(a: Authority, s: State, r: Rid)
    requires Inv(s) && Enabled(a, s, ToolStarts(r))
    ensures Inv(Next(a, s, ToolStarts(r)))
  {
    var s' := Next(a, s, ToolStarts(r));
    forall x | x in s'.runs && Custodial(s', s'.runs[x])
      ensures s'.runs[x].gen.Some? && Matches(s'.claims, s'.runs[x].task, s'.runs[x].gen.value)
    {
      assert Custodial(s, s.runs[x]);
    }
  }

  lemma AuthorityKeepsInv(s: State, q: Qid, confirms: bool)
    requires Inv(s) && Enabled(Sound, s, AuthorityReply(q, confirms))
    ensures Inv(Next(Sound, s, AuthorityReply(q, confirms)))
  {
    var s' := Next(Sound, s, AuthorityReply(q, confirms));
    forall x | x in s'.runs && Custodial(s', s'.runs[x])
      ensures s'.runs[x].gen.Some? && Matches(s'.claims, s'.runs[x].task, s'.runs[x].gen.value)
    {
      assert Custodial(s, s.runs[x]);
    }
  }

  /** The second local check: a custodian that was let pass because it is seen locally is now gone. */
  lemma RecheckKeepsInv(a: Authority, s: State, q: Qid)
    requires Inv(s) && ActiveOk(s) && Enabled(a, s, Recheck(q))
    ensures Inv(Next(a, s, Recheck(q)))
  {
    var s' := Next(a, s, Recheck(q));
    forall x | x in s'.runs && Custodial(s', s'.runs[x])
      ensures s'.runs[x].gen.Some? && Matches(s'.claims, s'.runs[x].task, s'.runs[x].gen.value)
    {
      assert Custodial(s, s.runs[x]);
    }
    forall p, x | p in s'.recs && x in s'.runs && ConfirmedGen(s'.recs[p]).Some? &&
                  OfClaim(s'.runs[x], s'.recs[p].task, ConfirmedGen(s'.recs[p]).value) && Custodial(s', s'.runs[x])
      ensures s'.recs[p].pc.Confirmed? && SeenLocally(s'.recs[p], s'.runs[x])
    {
      assert Custodial(s, s.runs[x]);
      assert p == q ==> SeenLocally(s.recs[q], s.runs[x]);
    }
  }

  /** A confirmed generation has no custodian left, so the matched release takes no one's fence. */
  lemma MatchKeepsInv(a: Authority, s: State, q: Qid)
    requires Inv(s) && Enabled(a, s, AskMatch(q))
    ensures Inv(Next(a, s, AskMatch(q)))
  {
    var s' := Next(a, s, AskMatch(q));
    forall x | x in s'.runs && Custodial(s', s'.runs[x])
      ensures s'.runs[x].gen.Some? && Matches(s'.claims, s'.runs[x].task, s'.runs[x].gen.value)
    {
      assert Custodial(s, s.runs[x]);
      assert ConfirmedGen(s.recs[q]) == Some(s.recs[q].pc.gen);
    }
  }

  lemma RunLoudStepKeepsInv(s: State, step: Step)
    requires Inv(s) && Enabled(Sound, s, step)
    requires step.AskClaim? || step.Observe? || step.Append? || step.AskRelease? || step.ToolStarts?
    ensures Inv(Next(Sound, s, step))
  {
    if step.AskClaim? {
      ClaimKeepsInv(Sound, s, step.r, step.at);
    } else if step.Observe? {
      ObserveKeepsInv(Sound, s, step.r);
    } else if step.Append? {
      AppendKeepsInv(Sound, s, step.r, step.ok);
    } else if step.AskRelease? {
      ReleaseKeepsInv(Sound, s, step.r);
    } else {
      StartKeepsInv(Sound, s, step.r);
    }
  }

  lemma StepKeepsInv(s: State, step: Step)
    requires Inv(s) && ActiveOk(s) && Enabled(Sound, s, step)
    ensures Inv(Next(Sound, s, step))
  {
    if IsQuiet(step) {
      QuietStep(Sound, s, step);
      QuietKeepsInv(s, Next(Sound, s, step));
    } else if step.AuthorityReply? {
      AuthorityKeepsInv(s, step.q, step.confirms);
    } else if step.Recheck? {
      RecheckKeepsInv(Sound, s, step.q);
    } else if step.AskMatch? {
      MatchKeepsInv(Sound, s, step.q);
    } else {
      RunLoudStepKeepsInv(s, step);
    }
  }

  // ---------------------------------------------------------------------------------------
  // The trace: why a task id may be invoked again

  predicate IsReason(e: Event, t: TaskId, g: nat) {
    e == Rejected(t, g) || e == Persisted(t, g) || e == Reconciled(t, g)
  }

  predicate ReasonBetween(trace: seq<Event>, i: nat, j: nat, t: TaskId, g: nat)
    requires j <= |trace|
  {
    exists k :: i < k < j && IsReason(trace[k], t, g)
  }

  predicate InvokedBy(s: State, t: TaskId, g: nat) {
    exists r :: r in s.runs && s.runs[r].task == t && s.runs[r].gen == Some(g) && Called(s.runs[r].exec)
  }

  /** The claim of an invoked generation stays until there is a reason to drop it. */
  predicate Accounted(s: State) {
    forall i :: 0 <= i < |s.trace| && s.trace[i].Invoked? ==>
                  InvokedBy(s, s.trace[i].task, s.trace[i].gen) &&
                  (Matches(s.claims, s.trace[i].task, s.trace[i].gen) ||
                   ReasonBetween(s.trace, i, |s.trace|, s.trace[i].task, s.trace[i].gen))
  }

  predicate ReleaseJustified(s: State) {
    forall r, i :: r in s.runs && Up(s, s.runs[r].proc) && s.runs[r].pc.Releasing? && s.runs[r].gen.Some? &&
                   0 <= i < |s.trace| && s.trace[i] == Invoked(s.runs[r].task, s.runs[r].gen.value) ==>
                     ReasonBetween(s.trace, i, |s.trace|, s.runs[r].task, s.runs[r].gen.value)
  }

  /** Between two invocations of one task id lies a reason tied to the earlier generation. */
  predicate Spaced(trace: seq<Event>) {
    forall i, j :: 0 <= i < j < |trace| && trace[i].Invoked? && trace[j].Invoked? && trace[i].task == trace[j].task ==>
                     ReasonBetween(trace, i, j, trace[i].task, trace[i].gen)
  }

  predicate TraceInv(s: State) {
    Accounted(s) && ReleaseJustified(s) && Spaced(s.trace)
  }

  lemma QuietKeepsTrace(s: State, s': State)
    requires Inv(s) && TraceInv(s) && Quiet(s, s')
    ensures TraceInv(s')
  {
    forall i | 0 <= i < |s'.trace| && s'.trace[i].Invoked?
      ensures InvokedBy(s', s'.trace[i].task, s'.trace[i].gen)
    {
      var r :| r in s.runs && s.runs[r].task == s.trace[i].task && s.runs[r].gen == Some(s.trace[i].gen) &&
               Called(s.runs[r].exec);
      assert RunQuiet(s, s', r);
    }
    forall r, i | r in s'.runs && Up(s', s'.runs[r].proc) && s'.runs[r].pc.Releasing? && s'.runs[r].gen.Some? &&
                  0 <= i < |s'.trace| && s'.trace[i] == Invoked(s'.runs[r].task, s'.runs[r].gen.value)
      ensures ReasonBetween(s'.trace, i, |s'.trace|, s'.runs[r].task, s'.runs[r].gen.value)
    {
      assert RunQuiet(s, s', r);
    }
  }

  /** A step that invokes nothing, and drops a claim or reaches a release only with a reason. */
  predicate Justified(s: State, s': State) {
    && (s'.trace == s.trace || (s'.trace != [] && s'.trace[..|s'.trace| - 1] == s.trace && !s'.trace[|s'.trace| - 1].Invoked?))
    && (forall r :: r in s.runs ==>
          r in s'.runs && s'.runs[r].task == s.runs[r].task && s'.runs[r].gen.Some? == s.runs[r].gen.Some? &&
          (s.runs[r].gen.Some? ==> s'.runs[r].gen == s.runs[r].gen) &&
          (Called(s.runs[r].exec) ==> Called(s'.runs[r].exec)))
  }

  lemma ReasonGrows(s: State, s': State, i: nat, t: TaskId, g: nat)
    requires Justified(s, s') && ReasonBetween(s.trace, i, |s.trace|, t, g)
    ensures ReasonBetween(s'.trace, i, |s'.trace|, t, g)
  {
    var k :| i < k < |s.trace| && IsReason(s.trace[k], t, g);
    assert s'.trace[k] == s.trace[k];
  }

  lemma JustifiedKeepsSpaced(s: State, s': State)
    requires Spaced(s.trace)
    requires s'.trace == s.trace || (s'.trace != [] && s'.trace[..|s'.trace| - 1] == s.trace && !s'.trace[|s'.trace| - 1].Invoked?)
    ensures Spaced(s'.trace)
  {
    forall i, j | 0 <= i < j < |s'.trace| && s'.trace[i].Invoked? && s'.trace[j].Invoked? &&
                  s'.trace[i].task == s'.trace[j].task
      ensures ReasonBetween(s'.trace, i, j, s'.trace[i].task, s'.trace[i].gen)
    {
      assert j < |s.trace| && s.trace[i] == s'.trace[i] && s.trace[j] == s'.trace[j];
      var k :| i < k < j && IsReason(s.trace[k], s.trace[i].task, s.trace[i].gen);
      assert s'.trace[k] == s.trace[k];
    }
  }

  lemma JustifiedKeepsAccounted(s: State, s': State)
    requires Accounted(s) && Justified(s, s') && (forall r :: r in s'.runs ==> r in s.runs)
    requires forall i :: 0 <= i < |s.trace| && s.trace[i].Invoked? &&
                           Matches(s.claims, s.trace[i].task, s.trace[i].gen) &&
                           !Matches(s'.claims, s.trace[i].task, s.trace[i].gen) ==>
                             ReasonBetween(s'.trace, i, |s'.trace|, s.trace[i].task, s.trace[i].gen)
    ensures Accounted(s')
  {
    forall i | 0 <= i < |s'.trace| && s'.trace[i].Invoked?
      ensures InvokedBy(s', s'.trace[i].task, s'.trace[i].gen)
      ensures Matches(s'.claims, s'.trace[i].task, s'.trace[i].gen) ||
              ReasonBetween(s'.trace, i, |s'.trace|, s'.trace[i].task, s'.trace[i].gen)
    {
      assert i < |s.trace| && s.trace[i] == s'.trace[i];
      var t, g := s.trace[i].task, s.trace[i].gen;
      var r :| r in s.runs && s.runs[r].task == t && s.runs[r].gen == Some(g) && Called(s.runs[r].exec);
      assert r in s'.runs;
      if ReasonBetween(s.trace, i, |s.trace|, t, g) {
        ReasonGrows(s, s', i, t, g);
      }
    }
  }

  lemma JustifiedKeepsRelease(s: State, s': State)
    requires ReleaseJustified(s) && Justified(s, s') && (forall r :: r in s'.runs ==> r in s.runs)
    requires forall r :: r in s'.runs && Up(s', s'.runs[r].proc) && s'.runs[r].pc.Releasing? && s'.runs[r].gen.Some? ==>
                           (Up(s, s.runs[r].proc) && s.runs[r].pc.Releasing? && s.runs[r].gen == s'.runs[r].gen) ||
                           (s'.trace != s.trace &&
                            IsReason(s'.trace[|s'.trace| - 1], s'.runs[r].task, s'.runs[r].gen.value))
    ensures ReleaseJustified(s')
  {
    forall r, i | r in s'.runs && Up(s', s'.runs[r].proc) && s'.runs[r].pc.Releasing? && s'.runs[r].gen.Some? &&
                  0 <= i < |s'.trace| && s'.trace[i] == Invoked(s'.runs[r].task, s'.runs[r].gen.value)
      ensures ReasonBetween(s'.trace, i, |s'.trace|, s'.runs[r].task, s'.runs[r].gen.value)
    {
      assert i < |s.trace| && s.trace[i] == s'.trace[i];
      if Up(s, s.runs[r].proc) && s.runs[r].pc.Releasing? && s.runs[r].gen == s'.runs[r].gen {
        ReasonGrows(s, s', i, s.runs[r].task, s.runs[r].gen.value);
      }
    }
  }

  lemma ClaimKeepsTrace(a: Authority, s: State, r: Rid, at: int)
    requires Inv(s) && TraceInv(s) && Enabled(a, s, AskClaim(r, at))
    ensures TraceInv(Next(a, s, AskClaim(r, at)))
  {
    var s' := Next(a, s, AskClaim(r, at));
    forall i | 0 <= i < |s.trace| && s.trace[i].Invoked?
      ensures InvokedBy(s', s.trace[i].task, s.trace[i].gen)
    {
      var x :| x in s.runs && s.runs[x].task == s.trace[i].task && s.runs[x].gen == Some(s.trace[i].gen) &&
               Called(s.runs[x].exec);
      assert x != r && s'.runs[x] == s.runs[x];
    }
  }

  lemma ObserveKeepsTrace(a: Authority, s: State, r: Rid)
    requires Inv(s) && TraceInv(s) && Enabled(a, s, Observe(r))
    ensures TraceInv(Next(a, s, Observe(r)))
  {
    var s' := Next(a, s, Observe(r));
    var run' := s.runs[r].(pc := s'.runs[r].pc);
    assert s'.runs == s.runs[r := run'] && s'.claims == s.claims && s'.procs == s.procs;
    assert Justified(s, s');
    JustifiedKeepsSpaced(s, s');
    JustifiedKeepsAccounted(s, s');
    JustifiedKeepsRelease(s, s');
  }

  lemma AppendKeepsTrace(a: Authority, s: State, r: Rid, ok: bool)
    requires Inv(s) && TraceInv(s) && Enabled(a, s, Append(r, ok))
    ensures TraceInv(Next(a, s, Append(r, ok)))
  {
    var s' := Next(a, s, Append(r, ok));
    JustifiedKeepsSpaced(s, s');
    JustifiedKeepsAccounted(s, s');
    JustifiedKeepsRelease(s, s');
  }

  lemma ReleaseKeepsTrace(a: Authority, s: State, r: Rid)
    requires Inv(s) && TraceInv(s) && Enabled(a, s, AskRelease(r))
    ensures TraceInv(Next(a, s, AskRelease(r)))
  {
    var s' := Next(a, s, AskRelease(r));
    assert Custodial(s, s.runs[r]);
    JustifiedKeepsAccounted(s, s');
    JustifiedKeepsRelease(s, s');
  }

  lemma AuthorityKeepsTrace(a: Authority, s: State, step: Step)
    requires TraceInv(s) && Enabled(a, s, step) && (step.AuthorityReply? || step.Recheck?)
    ensures TraceInv(Next(a, s, step))
  {
    var s' := Next(a, s, step);
    JustifiedKeepsAccounted(s, s');
    JustifiedKeepsRelease(s, s');
  }

  lemma MatchKeepsTrace(a: Authority, s: State, q: Qid)
    requires TraceInv(s) && Enabled(a, s, AskMatch(q))
    ensures TraceInv(Next(a, s, AskMatch(q)))
  {
    var s' := Next(a, s, AskMatch(q));
    JustifiedKeepsSpaced(s, s');
    JustifiedKeepsAccounted(s, s');
    JustifiedKeepsRelease(s, s');
  }

  /** A new invocation finds its own generation in the store, so every earlier one has its reason. */
  lemma StartKeepsTrace(a: Authority, s: State, r: Rid)
    requires Inv(s) && TraceInv(s) && Enabled(a, s, ToolStarts(r))
    ensures TraceInv(Next(a, s, ToolStarts(r)))
  {
    var s' := Next(a, s, ToolStarts(r));
    var t, g := s.runs[r].task, s.runs[r].gen.value;
    assert Custodial(s, s.runs[r]);
    assert s'.trace == s.trace + [Invoked(t, g)];
    forall i | 0 <= i < |s.trace| && s.trace[i].Invoked? && s.trace[i].task == t
      ensures s.trace[i].gen != g && ReasonBetween(s.trace, i, |s.trace|, t, s.trace[i].gen)
    {
      var x :| x in s.runs && s.runs[x].task == t && s.runs[x].gen == Some(s.trace[i].gen) && Called(s.runs[x].exec);
    }
    StartKeepsSpaced(s.trace, s'.trace, t, g);
    StartKeepsAccounted(s, s', r);
    StartKeepsRelease(s, s', r);
  }

  lemma StartKeepsSpaced(trace: seq<Event>, trace': seq<Event>, t: TaskId, g: nat)
    requires Spaced(trace) && trace' == trace + [Invoked(t, g)]
    requires forall i :: 0 <= i < |trace| && trace[i].Invoked? && trace[i].task == t ==>
                           ReasonBetween(trace, i, |trace|, t, trace[i].gen)
    ensures Spaced(trace')
  {
    forall i, j | 0 <= i < j < |trace'| && trace'[i].Invoked? && trace'[j].Invoked? && trace'[i].task == trace'[j].task
      ensures ReasonBetween(trace', i, j, trace'[i].task, trace'[i].gen)
    {
      assert trace'[i] == trace[i];
      assert j < |trace| ==> trace'[j] == trace[j];
      assert ReasonBetween(trace, i, j, trace[i].task, trace[i].gen);
      var k :| i < k < j && IsReason(trace[k], trace[i].task, trace[i].gen);
      assert trace'[k] == trace[k];
    }
  }

  lemma StartKeepsAccounted(s: State, s': State, r: Rid)
    requires Accounted(s) && r in s.runs && s.runs[r].gen.Some?
    requires Matches(s.claims, s.runs[r].task, s.runs[r].gen.value)
    requires s' == Log(SetExec(s, r, ToolRunning), Invoked(s.runs[r].task, s.runs[r].gen.value))
    ensures Accounted(s')
  {
    forall i | 0 <= i < |s'.trace| && s'.trace[i].Invoked?
      ensures InvokedBy(s', s'.trace[i].task, s'.trace[i].gen)
      ensures Matches(s'.claims, s'.trace[i].task, s'.trace[i].gen) ||
              ReasonBetween(s'.trace, i, |s'.trace|, s'.trace[i].task, s'.trace[i].gen)
    {
      if i == |s.trace| {
        assert s'.runs[r].task == s.runs[r].task;
      } else {
        assert s'.trace[i] == s.trace[i];
        var t, g := s.trace[i].task, s.trace[i].gen;
        var x :| x in s.runs && s.runs[x].task == t && s.runs[x].gen == Some(g) && Called(s.runs[x].exec);
        assert x in s'.runs && Called(s'.runs[x].exec);
        if ReasonBetween(s.trace, i, |s.trace|, t, g) {
          var k :| i < k < |s.trace| && IsReason(s.trace[k], t, g);
          assert s'.trace[k] == s.trace[k];
        }
      }
    }
  }

  lemma StartKeepsRelease(s: State, s': State, r: Rid)
    requires RunsOk(s) && ReleaseJustified(s) && r in s.runs && s.runs[r].gen.Some? && s.runs[r].exec.PolicyPending?
    requires s' == Log(SetExec(s, r, ToolRunning), Invoked(s.runs[r].task, s.runs[r].gen.value))
    ensures ReleaseJustified(s')
  {
    forall x, i | x in s'.runs && Up(s', s'.runs[x].proc) && s'.runs[x].pc.Releasing? && s'.runs[x].gen.Some? &&
                  0 <= i < |s'.trace| && s'.trace[i] == Invoked(s'.runs[x].task, s'.runs[x].gen.value)
      ensures ReasonBetween(s'.trace, i, |s'.trace|, s'.runs[x].task, s'.runs[x].gen.value)
    {
      assert x != r && s'.runs[x] == s.runs[x];
      assert i < |s.trace| && s'.trace[i] == s.trace[i];
      assert ReasonBetween(s.trace, i, |s.trace|, s.runs[x].task, s.runs[x].gen.value);
      var k :| i < k < |s.trace| && IsReason(s.trace[k], s.runs[x].task, s.runs[x].gen.value);
      assert s'.trace[k] == s.trace[k];
    }
  }

  lemma LoudStepKeepsTrace(s: State, step: Step)
    requires Inv(s) && TraceInv(s) && Enabled(Sound, s, step) && !IsQuiet(step)
    ensures TraceInv(Next(Sound, s, step))
  {
    if step.AskClaim? {
      ClaimKeepsTrace(Sound, s, step.r, step.at);
    } else if step.Observe? {
      ObserveKeepsTrace(Sound, s, step.r);
    } else if step.Append? {
      AppendKeepsTrace(Sound, s, step.r, step.ok);
    } else if step.AskRelease? {
      ReleaseKeepsTrace(Sound, s, step.r);
    } else if step.ToolStarts? {
      StartKeepsTrace(Sound, s, step.r);
    } else if step.AuthorityReply? {
      AuthorityKeepsTrace(Sound, s, step);
    } else if step.Recheck? {
      AuthorityKeepsTrace(Sound, s, step);
    } else {
      MatchKeepsTrace(Sound, s, step.q);
    }
  }

  lemma StepKeepsTrace(s: State, step: Step)
    requires Inv(s) && TraceInv(s) && Enabled(Sound, s, step)
    ensures TraceInv(Next(Sound, s, step))
  {
    if IsQuiet(step) {
      QuietStep(Sound, s, step);
      QuietKeepsTrace(s, Next(Sound, s, step));
    } else {
      LoudStepKeepsTrace(s, step);
    }
  }
}
