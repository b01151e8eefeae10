/**
  Exactly which confirmations of a reconciliation authority are safe.

  A confirmation while the claim has a custodian that the runner's second local check does not see
  leads to overlapping invocations in some continuation; every other confirmation never does.
*/
module ClaimConfirmation {
  import opened Common
  import opened ClaimStore
  import opened ClaimProtocol
  import opened ClaimSafety
  import opened ClaimTables
  import opened ClaimTheorems

  // ---------------------------------------------------------------------------------------
  // Paths to an overlap

  lemma {:induction false} PathTrans(a: Authority, s: State, steps: seq<Step>, mid: State, more: seq<Step>, end: State)
    requires Path(a, s, steps, mid) && Path(a, mid, more, end)
    ensures Path(a, s, steps + more, end)
    decreases |steps|
  {
    if steps == [] {
      assert steps + more == more;
    } else {
      PathTrans(a, Next(a, s, steps[0]), steps[1..], mid, more, end);
      assert (steps + more)[1..] == steps[1..] + more;
    }
  }

  lemma PathStep(a: Authority, s: State, step: Step, steps: seq<Step>, end: State)
    requires Enabled(a, s, step) && Path(a, Next(a, s, step), steps, end)
    ensures Path(a, s, [step] + steps, end)
  {
    assert ([step] + steps)[1..] == steps;
  }

  // The states a fresh runtime goes through when it invokes a task id without a claim.

  const IdleProc: Proc := Proc(true, true, false, map[], map[], {})

  function Stage(s: State, p: Pid, proc: Proc, r: Rid, run: Run): State {
    s.(procs := s.procs[p := proc], runs := s.runs[r := run])
  }

  function Accepted(s: State, t: TaskId, p: Pid, r: Rid): State {
    Stage(s, p, IdleProc.(inFlight := map[t := r]), r, Run(p, t, true, Claiming, None, NotCalled))
  }

  function Fenced(s: State, t: TaskId): State {
    s.(claims := s.claims[t := Current(s.nextGen, 0)], nextGen := s.nextGen + 1)
  }

  function Claimed(s: State, t: TaskId, p: Pid, r: Rid): State {
    Stage(Fenced(s, t), p, IdleProc.(inFlight := map[t := r]), r,
          Run(p, t, true, ClaimAnswered(true), Some(s.nextGen), NotCalled))
  }

  function Called(s: State, t: TaskId, p: Pid, r: Rid, exec: Exec): State {
    Stage(Fenced(s, t), p, IdleProc.(inFlight := map[t := r], active := map[t := r]), r,
          Run(p, t, true, Executing, Some(s.nextGen), exec))
  }

  function AfterInvocation(s: State, t: TaskId, p: Pid, r: Rid): State {
    Log(Called(s, t, p, r, ToolRunning), Invoked(t, s.nextGen))
  }

  predicate Free(s: State, t: TaskId, p: Pid, r: Rid) {
    t !in s.claims && p !in s.procs && r !in s.runs
  }

  lemma FreshAccept(a: Authority, s: State, t: TaskId, p: Pid, r: Rid)
    requires Free(s, t, p, r)
    ensures var s1 := SetProc(s, p, IdleProc);
            Enabled(a, s1, ExecuteTask(p, t, r)) && Next(a, s1, ExecuteTask(p, t, r)) == Accepted(s, t, p, r)
  {
    var s1 := SetProc(s, p, IdleProc);
    assert s1.procs[p := IdleProc.(inFlight := map[t := r])] == s.procs[p := IdleProc.(inFlight := map[t := r])];
  }

  lemma FreshClaim(a: Authority, s: State, t: TaskId, p: Pid, r: Rid)
    requires Free(s, t, p, r)
    ensures var s1 := Accepted(s, t, p, r);
            Enabled(a, s1, AskClaim(r, 0)) && Next(a, s1, AskClaim(r, 0)) == Claimed(s, t, p, r)
  {
    var run := Run(p, t, true, ClaimAnswered(true), Some(s.nextGen), NotCalled);
    assert Accepted(s, t, p, r).runs[r := run] == s.runs[r := run];
  }

  lemma FreshCall(a: Authority, s: State, t: TaskId, p: Pid, r: Rid)
    requires Free(s, t, p, r)
    ensures var s1 := Claimed(s, t, p, r);
            Enabled(a, s1, ClaimReply(r)) && Next(a, s1, ClaimReply(r)) == Called(s, t, p, r, PolicyPending)
  {
    var s1 := Claimed(s, t, p, r);
    var run := Run(p, t, true, Executing, Some(s.nextGen), PolicyPending);
    var proc := IdleProc.(inFlight := map[t := r], active := map[t := r]);
    assert s1.runs[r := run] == s.runs[r := run];
    assert s1.procs[p := proc] == s.procs[p := proc];
  }

  lemma FreshStart(a: Authority, s: State, t: TaskId, p: Pid, r: Rid)
    requires Free(s, t, p, r)
    ensures var s1 := Called(s, t, p, r, PolicyPending);
            Enabled(a, s1, ToolStarts(r)) && Next(a, s1, ToolStarts(r)) == AfterInvocation(s, t, p, r)
  {
    var s1 := Called(s, t, p, r, PolicyPending);
    var run := Run(p, t, true, Executing, Some(s.nextGen), ToolRunning);
    assert s1.runs[r := run] == s.runs[r := run];
  }

  function InvocationSteps(t: TaskId, p: Pid, r: Rid): seq<Step> {
    [Boot(p)] + ([ExecuteTask(p, t, r)] + ([AskClaim(r, 0)] + ([ClaimReply(r)] + ([ToolStarts(r)] + []))))
  }

  /** A fresh runtime can invoke any task id that has no claim. */
  lemma FreshRuntimeInvokes(a: Authority, s: State, t: TaskId, p: Pid, r: Rid)
    requires Free(s, t, p, r)
    ensures Path(a, s, InvocationSteps(t, p, r), AfterInvocation(s, t, p, r))
  {
    var end := AfterInvocation(s, t, p, r);
    assert Path(a, end, [], end);
    FreshStart(a, s, t, p, r);
    PathStep(a, Called(s, t, p, r, PolicyPending), ToolStarts(r), [], end);
    FreshCall(a, s, t, p, r);
    PathStep(a, Claimed(s, t, p, r), ClaimReply(r), [ToolStarts(r)] + [], end);
    FreshClaim(a, s, t, p, r);
    PathStep(a, Accepted(s, t, p, r), AskClaim(r, 0), [ClaimReply(r)] + ([ToolStarts(r)] + []), end);
    FreshAccept(a, s, t, p, r);
    PathStep(a, SetProc(s, p, IdleProc), ExecuteTask(p, t, r),
             [AskClaim(r, 0)] + ([ClaimReply(r)] + ([ToolStarts(r)] + [])), end);
    PathStep(a, s, Boot(p), [ExecuteTask(p, t, r)] + ([AskClaim(r, 0)] + ([ClaimReply(r)] + ([ToolStarts(r)] + []))), end);
  }

  ghost predicate ReachesOverlap(a: Authority, s: State) {
    exists steps, end :: Path(a, s, steps, end) && Overlap(end)
  }

  lemma ReachesInOneStep(a: Authority, s: State, step: Step)
    requires Enabled(a, s, step) && ReachesOverlap(a, Next(a, s, step))
    ensures ReachesOverlap(a, s)
  {
    var steps, end :| Path(a, Next(a, s, step), steps, end) && Overlap(end);
    PathStep(a, s, step, steps, end);
  }

  /** A confirmed reconciliation is about to release the claim of this very run. */
  predicate Doomed(s: State, q: Qid, r: Rid) {
    && AtRecPc(s, q) && r in s.runs && s.runs[r].gen.Some?
    && s.recs[q].task == s.runs[r].task && s.recs[q].pc == Matching(s.runs[r].gen.value)
    && Matches(s.claims, s.runs[r].task, s.runs[r].gen.value)
  }

  lemma FreshNumber(used: set<nat>) returns (n: nat)
    ensures n !in used
  {
    if used == {} {
      n := 0;
    } else {
      n := Maximum(used) + 1;
    }
  }

  ghost function Maximum(used: set<nat>): (m: nat)
    requires used != {}
    ensures forall x :: x in used ==> x <= m
  {
    var x :| x in used;
    if used == {x} then x
    else
      var rest := used - {x};
      assert forall y :: y in used ==> y == x || y in rest;
      var m := Maximum(rest);
      if x > m then x else m
  }

  lemma OverlapsNow(a: Authority, s: State, r1: Rid, r2: Rid)
    requires r1 in s.runs && r2 in s.runs && r1 != r2 && s.runs[r1].task == s.runs[r2].task
    requires s.runs[r1].exec.ToolRunning? && s.runs[r2].exec.ToolRunning?
    ensures ReachesOverlap(a, s)
  {
    assert Path(a, s, [], s);
  }

  lemma ReachesAfterInvocation(a: Authority, s: State, t: TaskId, p: Pid, r: Rid)
    requires Free(s, t, p, r) && ReachesOverlap(a, AfterInvocation(s, t, p, r))
    ensures ReachesOverlap(a, s)
  {
    var mid := AfterInvocation(s, t, p, r);
    var steps, end :| Path(a, mid, steps, end) && Overlap(end);
    FreshRuntimeInvokes(a, s, t, p, r);
    PathTrans(a, s, InvocationSteps(t, p, r), mid, steps, end);
  }

  /** The old tool is still running when its claim is released: a fresh runtime overlaps with it. */
  lemma RunningToolOverlaps(a: Authority, s: State, q: Qid, r: Rid)
    requires Doomed(s, q, r) && s.runs[r].exec.ToolRunning?
    ensures ReachesOverlap(a, s)
  {
    var t := s.runs[r].task;
    var s1 := Next(a, s, AskMatch(q));
    var p1 := FreshNumber(s1.procs.Keys);
    var r1 := FreshNumber(s1.runs.Keys);
    OverlapsNow(a, AfterInvocation(s1, t, p1, r1), r, r1);
    ReachesAfterInvocation(a, s1, t, p1, r1);
    ReachesInOneStep(a, s, AskMatch(q));
  }

  /** The old run then releases by task id and takes the fence of the run that came in between. */
  lemma LateReleaseOverlaps(a: Authority, s: State, t: TaskId, r: Rid)
    requires t !in s.claims && AtPc(s, r) && s.runs[r].pc.Releasing? && s.runs[r].task == t
    ensures ReachesOverlap(a, s)
  {
    var p1 := FreshNumber(s.procs.Keys);
    var r1 := FreshNumber(s.runs.Keys);
    var s1 := AfterInvocation(s, t, p1, r1);
    var s2 := Next(a, s1, AskRelease(r));
    var p2 := FreshNumber(s2.procs.Keys);
    var r2 := FreshNumber(s2.runs.Keys);
    OverlapsNow(a, AfterInvocation(s2, t, p2, r2), r1, r2);
    ReachesAfterInvocation(a, s2, t, p2, r2);
    ReachesInOneStep(a, s1, AskRelease(r));
    ReachesAfterInvocation(a, s, t, p1, r1);
  }

  lemma PendingReleaseOverlaps(a: Authority, s: State, q: Qid, r: Rid)
    requires Doomed(s, q, r) && Up(s, s.runs[r].proc) && s.runs[r].pc.Releasing?
    ensures ReachesOverlap(a, s)
  {
    LateReleaseOverlaps(a, Next(a, s, AskMatch(q)), s.runs[r].task, r);
    ReachesInOneStep(a, s, AskMatch(q));
  }

  lemma PendingPolicyOverlaps(a: Authority, s: State, q: Qid, r: Rid)
    requires Doomed(s, q, r) && Up(s, s.runs[r].proc) && s.runs[r].exec.PolicyPending?
    ensures ReachesOverlap(a, s)
  {
    RunningToolOverlaps(a, Next(a, s, ToolStarts(r)), q, r);
    ReachesInOneStep(a, s, ToolStarts(r));
  }

  lemma WonClaimOverlaps(a: Authority, s: State, q: Qid, r: Rid)
    requires Doomed(s, q, r) && Up(s, s.runs[r].proc) && s.runs[r].pc == ClaimAnswered(true)
    ensures ReachesOverlap(a, s)
  {
    PendingPolicyOverlaps(a, Next(a, s, ClaimReply(r)), q, r);
    ReachesInOneStep(a, s, ClaimReply(r));
  }

  lemma PersistingOverlaps(a: Authority, s: State, q: Qid, r: Rid)
    requires Doomed(s, q, r) && Up(s, s.runs[r].proc) && s.runs[r].pc.Persisting?
    ensures ReachesOverlap(a, s)
  {
    PendingReleaseOverlaps(a, Next(a, s, Append(r, true)), q, r);
    ReachesInOneStep(a, s, Append(r, true));
  }

  /** A rejected run whose task is marked unknown: a retry in its process takes the marker away first. */
  lemma MarkedRunOverlaps(a: Authority, s: State, t: TaskId, r: Rid)
    requires AtPc(s, r) && s.runs[r].pc.Executing? && s.runs[r].exec == Settled(false) && s.runs[r].gen.Some?
    requires s.runs[r].task == t && t !in s.claims && t in s.procs[s.runs[r].proc].unknown
    ensures ReachesOverlap(a, s)
  {
    var p := s.runs[r].proc;
    var x := FreshNumber(s.runs.Keys);
    var s1 := Next(a, s, RunDirectly(p, t, x));
    var s2 := Next(a, s1, AskFence(x));
    var s3 := Next(a, s2, FenceReply(x));
    var s4 := Next(a, s3, Observe(r));
    LateReleaseOverlaps(a, s4, t, r);
    ReachesInOneStep(a, s3, Observe(r));
    ReachesInOneStep(a, s2, FenceReply(x));
    ReachesInOneStep(a, s1, AskFence(x));
    ReachesInOneStep(a, s, RunDirectly(p, t, x));
  }

  lemma SettledOverlaps(a: Authority, s: State, q: Qid, r: Rid)
    requires Doomed(s, q, r) && Up(s, s.runs[r].proc) && s.runs[r].pc.Executing? && s.runs[r].exec.Settled?
    ensures ReachesOverlap(a, s)
  {
    if s.runs[r].exec == Settled(false) && s.runs[r].task in s.procs[s.runs[r].proc].unknown {
      MarkedRunOverlaps(a, Next(a, s, AskMatch(q)), s.runs[r].task, r);
      ReachesInOneStep(a, s, AskMatch(q));
    } else {
      if s.runs[r].exec.ok {
        PersistingOverlaps(a, Next(a, s, Observe(r)), q, r);
      } else {
        PendingReleaseOverlaps(a, Next(a, s, Observe(r)), q, r);
      }
      ReachesInOneStep(a, s, Observe(r));
    }
  }

  predicate Sane(s: State, run: Run) {
    WellFormed(run) && (Up(s, run.proc) ==> !run.exec.Dead?)
  }

  /** A claim that is about to be released while it has a custodian: some continuation overlaps. */
  lemma EarlyConfirmationOverlaps(a: Authority, s: State, q: Qid, r: Rid)
    requires Doomed(s, q, r) && Custodial(s, s.runs[r]) && Sane(s, s.runs[r])
    ensures ReachesOverlap(a, s)
  {
    if s.runs[r].exec.ToolRunning? {
      RunningToolOverlaps(a, s, q, r);
    } else if s.runs[r].exec.PolicyPending? {
      PendingPolicyOverlaps(a, s, q, r);
    } else if s.runs[r].pc.Persisting? {
      PersistingOverlaps(a, s, q, r);
    } else if s.runs[r].pc.Releasing? {
      PendingReleaseOverlaps(a, s, q, r);
    } else if s.runs[r].pc.Executing? {
      SettledOverlaps(a, s, q, r);
    } else {
      WonClaimOverlaps(a, s, q, r);
    }
  }

  // ---------------------------------------------------------------------------------------
  // Exactly when confirming a claim is safe

  /** The authority's confirmation, whether or not it should have been given. */
  function Confirm(s: State, q: Qid): State
    requires q in s.recs && s.recs[q].pc.Verifying?
  {
    SetRec(s, q, Confirmed(s.recs[q].pc.gen))
  }

  /** The claim of this run has been confirmed by a reconciliation whose second local check is still to come. */
  predicate Promised(s: State, q: Qid, r: Rid) {
    && AtRecPc(s, q) && r in s.runs && s.recs[q].pc.Confirmed?
    && OfClaim(s.runs[r], s.recs[q].task, s.recs[q].pc.gen)
    && Matches(s.claims, s.runs[r].task, s.recs[q].pc.gen)
    && Custodial(s, s.runs[r]) && Sane(s, s.runs[r])
  }

  lemma UnseenOverlaps(a: Authority, s: State, q: Qid, r: Rid)
    requires Promised(s, q, r) && s.recs[q].task !in s.procs[s.recs[q].proc].active
    ensures ReachesOverlap(a, s)
  {
    EarlyConfirmationOverlaps(a, Next(a, s, Recheck(q)), q, r);
    ReachesInOneStep(a, s, Recheck(q));
  }

  /** A settled active execution is forgotten, and then the local check sees nothing. */
  lemma ForgottenOverlaps(a: Authority, s: State, q: Qid, r: Rid, x: Rid)
    requires Promised(s, q, r) && Holds(s.procs[s.recs[q].proc].active, s.recs[q].task, x)
    requires x in s.runs && s.runs[x].proc == s.recs[q].proc && s.runs[x].task == s.recs[q].task && s.runs[x].exec.Settled?
    ensures ReachesOverlap(a, s)
  {
    UnseenOverlaps(a, Next(a, s, ForgetActive(x)), q, r);
    ReachesInOneStep(a, s, ForgetActive(x));
  }

  /** The tool of a run that has not timed out settles first. */
  lemma AwaitedRunOverlaps(a: Authority, s: State, q: Qid, r: Rid)
    requires Promised(s, q, r) && Unsettled(s.runs[r].exec) && s.runs[r].pc.Executing?
    requires s.runs[r].proc == s.recs[q].proc && Holds(s.procs[s.recs[q].proc].active, s.recs[q].task, r)
    ensures ReachesOverlap(a, s)
  {
    var step := if s.runs[r].exec.ToolRunning? then ToolSettles(r, false) else PolicyDenies(r);
    var s' := Next(a, s, step);
    assert s'.runs[r] == s.runs[r].(exec := Settled(false)) && s'.recs == s.recs && s'.procs == s.procs;
    ForgottenOverlaps(a, s', q, r, r);
    ReachesInOneStep(a, s, step);
  }

  /** A custodian that the local check does not see makes the confirmation unsafe. */
  lemma UnsoundConfirmationOverlaps(a: Authority, s: State, q: Qid, r: Rid)
    requires Inv(s) && Tables(s) && AtRecPc(s, q) && s.recs[q].pc.Verifying?
    requires r in s.runs && OfClaim(s.runs[r], s.recs[q].task, s.recs[q].pc.gen)
    requires Custodial(s, s.runs[r]) && !SeenLocally(s.recs[q], s.runs[r])
    ensures ReachesOverlap(a, Confirm(s, q))
  {
    var p, t := s.recs[q].proc, s.recs[q].task;
    var s1 := Confirm(s, q);
    assert Promised(s1, q, r);
    if t !in s.procs[p].active {
      UnseenOverlaps(a, s1, q, r);
    } else {
      var x := s.procs[p].active[t];
      if Unsettled(s.runs[x].exec) {
        CustodyIsExclusive(s, x, r);
        AwaitedRunOverlaps(a, s1, q, r);
      } else {
        ForgottenOverlaps(a, s1, q, r, x);
      }
    }
  }

  lemma SoundConfirmationIsSafe(s: State, q: Qid)
    requires Inv(s) && TraceInv(s) && Tables(s)
    requires AtRecPc(s, q) && s.recs[q].pc.Verifying? && MayConfirm(Sound, s, s.recs[q])
    ensures !ReachesOverlap(Sound, Confirm(s, q))
  {
    var s1 := Next(Sound, s, AuthorityReply(q, true));
    StepKeepsInv(s, AuthorityReply(q, true));
    StepKeepsTrace(s, AuthorityReply(q, true));
    StepKeepsTables(Sound, s, AuthorityReply(q, true));
    if steps, end :| Path(Sound, s1, steps, end) && Overlap(end) {
      PathKeepsInv(s1, steps, end);
      InvIsSafe(end);
    }
  }

  /**
    In every reachable state, confirming a claim lets two invocations of its task id overlap in some
    continuation, with sound confirmations from then on, exactly if the sound authority would not
    have confirmed it.  No weaker demand on the authority is enough.
  */
  lemma ConfirmationIsSafeExactly(s0: State, steps: seq<Step>, s: State, q: Qid)
    requires Init(s0) && Path(Sound, s0, steps, s)
    requires AtRecPc(s, q) && s.recs[q].pc.Verifying?
    ensures ReachesOverlap(Sound, Confirm(s, q)) <==>
            exists r :: r in s.runs && OfClaim(s.runs[r], s.recs[q].task, s.recs[q].pc.gen) &&
                        Custodial(s, s.runs[r]) && !SeenLocally(s.recs[q], s.runs[r])
  {
    PathKeepsInv(s0, steps, s);
    if MayConfirm(Sound, s, s.recs[q]) {
      SoundConfirmationIsSafe(s, q);
    } else {
      var r :| r in s.runs && OfClaim(s.runs[r], s.recs[q].task, s.recs[q].pc.gen) &&
               Custodial(s, s.runs[r]) && !SeenLocally(s.recs[q], s.runs[r]);
      UnsoundConfirmationOverlaps(Sound, s, q, r);
    }
  }

  // An authority that waits for the tool alone.  Runtime 0 runs task "t" and its tool is rejected;
  // while runtime 0 waits for the store to release the claim, runtime 1 reconciles it.

  const Empty: State := State(map[], map[], map[], map[], 0, [])

  function RejectedRun(): Run {
    Run(0, "t", true, Releasing, Some(0), Settled(false))
  }

  function AfterRejection(): State {
    AfterInvocation(Empty, "t", 0, 0).(runs := map[0 := RejectedRun()], trace := [Invoked("t", 0), Rejected("t", 0)])
  }

  function WithReconciliation(pc: RecPc): State {
    var s := AfterRejection();
    s.(procs := s.procs[1 := IdleProc], recs := map[0 := Rec(1, "t", pc)])
  }

  lemma RejectionIsReached()
    ensures Path(ToolOnly, AfterInvocation(Empty, "t", 0, 0), [ToolSettles(0, false), Observe(0)], AfterRejection())
  {
    var s := AfterInvocation(Empty, "t", 0, 0);
    var s1 := s.(runs := map[0 := s.runs[0].(exec := Settled(false))]);
    assert Next(ToolOnly, s, ToolSettles(0, false)) == s1;
    assert Next(ToolOnly, s1, Observe(0)) == AfterRejection();
    var end := AfterRejection();
    assert Path(ToolOnly, end, [], end);
    PathStep(ToolOnly, s1, Observe(0), [], end);
    PathStep(ToolOnly, s, ToolSettles(0, false), [Observe(0)], end);
  }

  lemma ConfirmedOverlaps()
    ensures ReachesOverlap(ToolOnly, WithReconciliation(Confirmed(0)))
  {
    EarlyConfirmationOverlaps(ToolOnly, WithReconciliation(Matching(0)), 0, 0);
    assert Next(ToolOnly, WithReconciliation(Confirmed(0)), Recheck(0)) == WithReconciliation(Matching(0));
    ReachesInOneStep(ToolOnly, WithReconciliation(Confirmed(0)), Recheck(0));
  }

  lemma VerifyingOverlaps()
    ensures ReachesOverlap(ToolOnly, WithReconciliation(Verifying(0)))
  {
    var s := WithReconciliation(Verifying(0));
    assert MayConfirm(ToolOnly, s, s.recs[0]);
    assert Next(ToolOnly, s, AuthorityReply(0, true)) == WithReconciliation(Confirmed(0));
    ConfirmedOverlaps();
    ReachesInOneStep(ToolOnly, s, AuthorityReply(0, true));
  }

  lemma ReconciliationOverlaps()
    ensures ReachesOverlap(ToolOnly, WithReconciliation(Inspecting))
  {
    var s := WithReconciliation(Inspecting);
    assert Next(ToolOnly, s, Inspect(0)) == WithReconciliation(Verifying(0));
    VerifyingOverlaps();
    ReachesInOneStep(ToolOnly, s, Inspect(0));
  }

  lemma RejectionOverlaps()
    ensures ReachesOverlap(ToolOnly, AfterRejection())
  {
    var s := AfterRejection();
    var s1 := s.(procs := s.procs[1 := IdleProc]);
    ReconciliationOverlaps();
    assert Next(ToolOnly, s1, Reconcile(1, "t", 0, true)) == WithReconciliation(Inspecting);
    ReachesInOneStep(ToolOnly, s1, Reconcile(1, "t", 0, true));
    assert Next(ToolOnly, s, Boot(1)) == s1;
    ReachesInOneStep(ToolOnly, s, Boot(1));
  }

  /** The tool-only authority, which its interface allows, does not prevent overlapping invocations. */
  lemma ToolOnlyAuthorityIsNotEnough()
    ensures Init(Empty) && ReachesOverlap(ToolOnly, Empty)
  {
    RejectionIsReached();
    RejectionOverlaps();
    var s := AfterInvocation(Empty, "t", 0, 0);
    var steps, end :| Path(ToolOnly, AfterRejection(), steps, end) && Overlap(end);
    PathTrans(ToolOnly, s, [ToolSettles(0, false), Observe(0)], AfterRejection(), steps, end);
    ReachesAfterInvocation(ToolOnly, Empty, "t", 0, 0);
  }
}
