/**
  The task-claim protocol as a step machine: any number of processes share one claim store.

  A step is one piece of code between two awaits, one atomic store operation (ClaimFile
  shows that the file store gives atomic operations), or a step of the outside world: a tool
  settles, a process crashes, the authority answers.  A run of `TaskRunner.run`, its tool
  invocation and a reconciliation are separate records, because a tool can settle long after
  `run()` has returned, and two processes interleave at every await.
*/
module ClaimProtocol {
  import opened Common
  import opened ClaimStore

  type Pid = nat
  type Rid = nat
  type Qid = nat

  /** The promise of `ActionExecutor.execute`: the policy is awaited before the tool is invoked. */
  datatype Exec = NotCalled | PolicyPending | ToolRunning | Settled(ok: bool) | Dead

  /** Where `TaskRunner.run` stands. */
  datatype Pc =
    | Fenced                   // the local marker is set: about to ask the store
    | FenceAnswered(claimed: bool)
    | Claiming
    | ClaimAnswered(won: bool)
    | Executing                // awaiting the tool, or the timer
    | Persisting               // awaiting MemoryStore.append
    | Releasing                // about to release by task id
    | Released(ok: bool)
    | Ended                    // run() has settled

  datatype Run = Run(proc: Pid, task: TaskId, guarded: bool, pc: Pc, gen: Option<nat>, exec: Exec)

  datatype RecPc =
    | Inspecting
    | Verifying(gen: nat)
    | Confirmed(gen: nat)
    | Matching(gen: nat)
    | Matched(released: bool)
    | Closed

  datatype Rec = Rec(proc: Pid, task: TaskId, pc: RecPc)

  /** The volatile state of one process: its runtime's reservations and its runner's two tables. */
  datatype Proc = Proc(
    up: bool,
    started: bool,
    finished: bool,
    inFlight: map<TaskId, Rid>,
    active: map<TaskId, Rid>,
    unknown: set<TaskId>)

  datatype Event =
    | Invoked(task: TaskId, gen: nat)
    | Rejected(task: TaskId, gen: nat)
    | Persisted(task: TaskId, gen: nat)
    | Reconciled(task: TaskId, gen: nat)

  datatype State = State(
    procs: map<Pid, Proc>,
    claims: Claims,
    runs: map<Rid, Run>,
    recs: map<Qid, Rec>,
    nextGen: nat,
    trace: seq<Event>)

  // ---------------------------------------------------------------------------------------
  // The reconciliation authority

  predicate Up(s: State, p: Pid) {
    p in s.procs && s.procs[p].up
  }

  /** The invocation of this run is over: the tool has settled, died or can never be called. */
  predicate ToolOver(s: State, run: Run) {
    match run.exec
    case NotCalled => !Up(s, run.proc) || run.pc.Ended?
    case PolicyPending => !Up(s, run.proc)
    case ToolRunning => false
    case Settled(_) => true
    case Dead => true
  }

  /** The run's tool may still start or run, or the run itself may still reach its release. */
  predicate Custodial(s: State, run: Run) {
    || run.exec.ToolRunning?
    || (Up(s, run.proc) &&
        (run.exec.PolicyPending? || run.pc == ClaimAnswered(true) || run.pc.Executing? ||
         run.pc.Persisting? || run.pc.Releasing?))
  }

  /** A timed-out run of the reconciling process itself: its table of active executions still shows the tool. */
  predicate SeenLocally(rec: Rec, run: Run) {
    run.proc == rec.proc && run.pc.Ended?
  }

  predicate OfClaim(run: Run, t: TaskId, g: nat) {
    run.task == t && run.gen == Some(g)
  }

  /**
    `Sound` confirms a claim once no run is its custodian, save one that the runner's second local
    check will see.  `ToolOnly` waits for the tool alone, which is all that its interface asks for
    (src/tasks/task-outcome-reconciliation.ts:12-24).
  */
  datatype Authority = Sound | ToolOnly

  predicate MayConfirm(a: Authority, s: State, rec: Rec)
    requires rec.pc.Verifying?
  {
    forall r :: r in s.runs && OfClaim(s.runs[r], rec.task, rec.pc.gen) ==>
                  if a.Sound? then Custodial(s, s.runs[r]) ==> SeenLocally(rec, s.runs[r])
                  else ToolOver(s, s.runs[r])
  }

  // ---------------------------------------------------------------------------------------
  // Steps

  datatype Step =
    | Boot(p: Pid)
    | BeginStop(p: Pid)
    | FinishStop(p: Pid)
    | Crash(p: Pid)
      // a run
    | ExecuteTask(p: Pid, t: TaskId, r: Rid)
    | RunDirectly(p: Pid, t: TaskId, r: Rid)
    | AskFence(r: Rid)
    | FenceReply(r: Rid)
    | AskClaim(r: Rid, at: int)
    | ClaimReply(r: Rid)
    | StoreFails(r: Rid)
    | TimerFires(r: Rid)
    | Observe(r: Rid)
    | Append(r: Rid, ok: bool)
    | AskRelease(r: Rid)
    | ReleaseReply(r: Rid)
    | Unreserve(r: Rid)
      // its invocation
    | PolicyDenies(r: Rid)
    | ToolStarts(r: Rid)
    | ToolSettles(r: Rid, ok: bool)
    | ToolDies(r: Rid)
    | ForgetActive(r: Rid)
      // a reconciliation
    | Reconcile(p: Pid, t: TaskId, q: Qid, guarded: bool)
    | Inspect(q: Qid)
    | AuthorityReply(q: Qid, confirms: bool)
    | Recheck(q: Qid)
    | AskMatch(q: Qid)
    | MatchReply(q: Qid)
    | RecFails(q: Qid)

  predicate AtPc(s: State, r: Rid) {
    r in s.runs && Up(s, s.runs[r].proc)
  }

  predicate AtRecPc(s: State, q: Qid) {
    q in s.recs && Up(s, s.recs[q].proc)
  }

  predicate Enabled(a: Authority, s: State, step: Step) {
    match step
    case Boot(p) => p !in s.procs
    case BeginStop(p) => Up(s, p) && s.procs[p].started
    case FinishStop(p) => Up(s, p) && !s.procs[p].started && !s.procs[p].finished
    case Crash(p) => Up(s, p)
    case ExecuteTask(p, t, r) =>
      Up(s, p) && s.procs[p].started && r !in s.runs && t !in s.procs[p].inFlight
    case RunDirectly(p, t, r) => Up(s, p) && r !in s.runs
    case AskFence(r) => AtPc(s, r) && s.runs[r].pc.Fenced?
    case FenceReply(r) => AtPc(s, r) && s.runs[r].pc.FenceAnswered?
    case AskClaim(r, _) => AtPc(s, r) && s.runs[r].pc.Claiming?
    case ClaimReply(r) => AtPc(s, r) && s.runs[r].pc.ClaimAnswered?
    case StoreFails(r) =>
      AtPc(s, r) && (s.runs[r].pc.Fenced? || s.runs[r].pc.Claiming? || s.runs[r].pc.Releasing?)
    case TimerFires(r) =>
      AtPc(s, r) && s.runs[r].pc.Executing? && !s.runs[r].exec.Settled?
    case Observe(r) => AtPc(s, r) && s.runs[r].pc.Executing? && s.runs[r].exec.Settled?
    case Append(r, _) => AtPc(s, r) && s.runs[r].pc.Persisting?
    case AskRelease(r) => AtPc(s, r) && s.runs[r].pc.Releasing?
    case ReleaseReply(r) => AtPc(s, r) && s.runs[r].pc.Released?
    case Unreserve(r) =>
      AtPc(s, r) && s.runs[r].guarded && s.runs[r].pc.Ended? &&
      !(s.runs[r].task in s.procs[s.runs[r].proc].active && s.procs[s.runs[r].proc].active[s.runs[r].task] == r)
    case PolicyDenies(r) => AtPc(s, r) && s.runs[r].exec.PolicyPending?
    case ToolStarts(r) => AtPc(s, r) && s.runs[r].exec.PolicyPending?
    case ToolSettles(r, _) => AtPc(s, r) && s.runs[r].exec.ToolRunning?
    case ToolDies(r) => r in s.runs && !Up(s, s.runs[r].proc) && s.runs[r].exec.ToolRunning?
    case ForgetActive(r) => AtPc(s, r) && s.runs[r].exec.Settled?
    case Reconcile(p, t, q, guarded) =>
      Up(s, p) && q !in s.recs && t !in s.procs[p].active &&
      (guarded ==> s.procs[p].started && t !in s.procs[p].inFlight)
    case Inspect(q) => AtRecPc(s, q) && s.recs[q].pc.Inspecting?
    case AuthorityReply(q, confirms) =>
      AtRecPc(s, q) && s.recs[q].pc.Verifying? && (confirms ==> MayConfirm(a, s, s.recs[q]))
    case Recheck(q) => AtRecPc(s, q) && s.recs[q].pc.Confirmed?
    case AskMatch(q) => AtRecPc(s, q) && s.recs[q].pc.Matching?
    case MatchReply(q) => AtRecPc(s, q) && s.recs[q].pc.Matched?
    case RecFails(q) => AtRecPc(s, q) && (s.recs[q].pc.Inspecting? || s.recs[q].pc.Matching?)
  }

  function SetPc(s: State, r: Rid, pc: Pc): State
    requires r in s.runs
  {
    s.(runs := s.runs[r := s.runs[r].(pc := pc)])
  }

  function SetExec(s: State, r: Rid, exec: Exec): State
    requires r in s.runs
  {
    s.(runs := s.runs[r := s.runs[r].(exec := exec)])
  }

  function SetProc(s: State, p: Pid, proc: Proc): State {
    s.(procs := s.procs[p := proc])
  }

  function SetRec(s: State, q: Qid, pc: RecPc): State
    requires q in s.recs
  {
    s.(recs := s.recs[q := s.recs[q].(pc := pc)])
  }

  function Mark(s: State, p: Pid, t: TaskId): State
    requires p in s.procs
  {
    SetProc(s, p, s.procs[p].(unknown := s.procs[p].unknown + {t}))
  }

  function Unmark(s: State, p: Pid, t: TaskId): State
    requires p in s.procs
  {
    SetProc(s, p, s.procs[p].(unknown := s.procs[p].unknown - {t}))
  }

  function Log(s: State, e: Event): State {
    s.(trace := s.trace + [e])
  }

  function NewRun(s: State, p: Pid, t: TaskId, r: Rid, guarded: bool): State
    requires p in s.procs
  {
    var pc := if t in s.procs[p].unknown then Fenced else Claiming;
    s.(runs := s.runs[r := Run(p, t, guarded, pc, None, NotCalled)])
  }

  /** The claim attempt: the store's own operation with a generation never used before. */
  function DoClaim(s: State, r: Rid, at: int): State
    requires r in s.runs
  {
    var run := s.runs[r];
    var (claims, reply) := Apply(s.claims, ClaimOp(run.task, s.nextGen, at));
    if reply == Answer(true) then
      s.(claims := claims, nextGen := s.nextGen + 1,
         runs := s.runs[r := run.(pc := ClaimAnswered(true), gen := Some(s.nextGen))])
    else
      SetPc(s, r, ClaimAnswered(false))
  }

  function DoClaimReply(s: State, r: Rid): State
    requires r in s.runs && s.runs[r].pc.ClaimAnswered? && s.runs[r].proc in s.procs
  {
    var run := s.runs[r];
    var proc := s.procs[run.proc];
    if run.pc.won then
      SetProc(s.(runs := s.runs[r := run.(pc := Executing, exec := PolicyPending)]),
              run.proc, proc.(active := proc.active[run.task := r]))
    else
      Mark(SetPc(s, r, Ended), run.proc, run.task)
  }

  /** run()'s continuation once the tool promise has settled before the deadline. */
  function DoObserve(s: State, r: Rid): State
    requires r in s.runs && s.runs[r].exec.Settled? && s.runs[r].proc in s.procs
  {
    var run := s.runs[r];
    if run.exec.ok then SetPc(s, r, Persisting)
    else if run.task in s.procs[run.proc].unknown || run.gen == None then SetPc(s, r, Ended)
    else Log(SetPc(s, r, Releasing), Rejected(run.task, run.gen.value))
  }

  function DoAppend(s: State, r: Rid, ok: bool): State
    requires r in s.runs && s.runs[r].proc in s.procs
  {
    var run := s.runs[r];
    if ok && run.gen.Some? then Log(SetPc(s, r, Releasing), Persisted(run.task, run.gen.value))
    else Mark(SetPc(s, r, Ended), run.proc, run.task)
  }

  function DoUnreserve(s: State, r: Rid): State
    requires r in s.runs && s.runs[r].proc in s.procs
  {
    var run := s.runs[r];
    var proc := s.procs[run.proc];
    if run.task in proc.inFlight && proc.inFlight[run.task] == r then
      SetProc(s, run.proc, proc.(inFlight := proc.inFlight - {run.task}))
    else s
  }

  function DoForget(s: State, r: Rid): State
    requires r in s.runs && s.runs[r].proc in s.procs
  {
    var run := s.runs[r];
    var proc := s.procs[run.proc];
    if run.task in proc.active && proc.active[run.task] == r then
      SetProc(s, run.proc, proc.(active := proc.active - {run.task}))
    else s
  }

  function DoInspect(s: State, q: Qid): State
    requires q in s.recs
  {
    match Apply(s.claims, InspectOp(s.recs[q].task)).1
    case Found(Some(snapshot)) => SetRec(s, q, Verifying(snapshot.id))
    case _ => SetRec(s, q, Closed)
  }

  function DoMatch(s: State, q: Qid): State
    requires q in s.recs && s.recs[q].pc.Matching?
  {
    var t, g := s.recs[q].task, s.recs[q].pc.gen;
    var (claims, reply) := Apply(s.claims, ReleaseIfMatchesOp(t, g));
    var s1 := SetRec(s, q, Matched(reply == Answer(true))).(claims := claims);
    if reply == Answer(true) then Log(s1, Reconciled(t, g)) else s1
  }

  function Next(a: Authority, s: State, step: Step): State
    requires Enabled(a, s, step)
  {
    match step
    case Boot(p) => SetProc(s, p, Proc(true, true, false, map[], map[], {}))
    case BeginStop(p) => SetProc(s, p, s.procs[p].(started := false))
    case FinishStop(p) => SetProc(s, p, s.procs[p].(finished := true, inFlight := map[]))
    case Crash(p) => SetProc(s, p, s.procs[p].(up := false))
    case ExecuteTask(p, t, r) =>
      SetProc(NewRun(s, p, t, r, true), p, s.procs[p].(inFlight := s.procs[p].inFlight[t := r]))
    case RunDirectly(p, t, r) => NewRun(s, p, t, r, false)
    case AskFence(r) =>
      SetPc(s, r, FenceAnswered(Apply(s.claims, HasOp(s.runs[r].task)).1 == Answer(true)))
    case FenceReply(r) =>
      if s.runs[r].pc.claimed then SetPc(s, r, Ended)
      else Unmark(SetPc(s, r, Claiming), s.runs[r].proc, s.runs[r].task)
    case AskClaim(r, at) => DoClaim(s, r, at)
    case ClaimReply(r) => DoClaimReply(s, r)
    case StoreFails(r) =>
      if s.runs[r].pc.Releasing? then SetPc(s, r, Released(false)) else SetPc(s, r, Ended)
    case TimerFires(r) => Mark(SetPc(s, r, Ended), s.runs[r].proc, s.runs[r].task)
    case Observe(r) => DoObserve(s, r)
    case Append(r, ok) => DoAppend(s, r, ok)
    case AskRelease(r) =>
      SetPc(s, r, Released(true)).(claims := Apply(s.claims, ReleaseOp(s.runs[r].task)).0)
    case ReleaseReply(r) =>
      if s.runs[r].pc.ok then Unmark(SetPc(s, r, Ended), s.runs[r].proc, s.runs[r].task)
      else Mark(SetPc(s, r, Ended), s.runs[r].proc, s.runs[r].task)
    case Unreserve(r) => DoUnreserve(s, r)
    case PolicyDenies(r) => SetExec(s, r, Settled(false))
    case ToolStarts(r) =>
      var s1 := SetExec(s, r, ToolRunning);
      if s.runs[r].gen.Some? then Log(s1, Invoked(s.runs[r].task, s.runs[r].gen.value)) else s1
    case ToolSettles(r, ok) => SetExec(s, r, Settled(ok))
    case ToolDies(r) => SetExec(s, r, Dead)
    case ForgetActive(r) => DoForget(s, r)
    case Reconcile(p, t, q, _) => s.(recs := s.recs[q := Rec(p, t, Inspecting)])
    case Inspect(q) => DoInspect(s, q)
    case AuthorityReply(q, confirms) =>
      if confirms then SetRec(s, q, Confirmed(s.recs[q].pc.gen)) else SetRec(s, q, Closed)
    case Recheck(q) =>
      if s.recs[q].task in s.procs[s.recs[q].proc].active then SetRec(s, q, Closed)
      else SetRec(s, q, Matching(s.recs[q].pc.gen))
    case AskMatch(q) => DoMatch(s, q)
    case MatchReply(q) =>
      if s.recs[q].pc.released then Unmark(SetRec(s, q, Closed), s.recs[q].proc, s.recs[q].task)
      else SetRec(s, q, Closed)
    case RecFails(q) => SetRec(s, q, Closed)
  }

  // ---------------------------------------------------------------------------------------
  // Runs of the machine

  /** A fresh start over any claim file, legacy records and old tombstones included. */
  predicate Init(s: State) {
    && s.procs == map[] && s.runs == map[] && s.recs == map[] && s.trace == []
    && forall t :: t in s.claims && s.claims[t].Current? ==> s.claims[t].id < s.nextGen
  }

  /** These steps, one after the other, lead from `s` to `end`. */
  predicate Path(a: Authority, s: State, steps: seq<Step>, end: State)
    decreases |steps|
  {
    if steps == [] then s == end
    else Enabled(a, s, steps[0]) && Path(a, Next(a, s, steps[0]), steps[1..], end)
  }

  /** Two invocations of one task id overlap in this state. */
  predicate Overlap(s: State) {
    exists r1, r2 :: r1 in s.runs && r2 in s.runs && r1 != r2 && s.runs[r1].task == s.runs[r2].task &&
                     s.runs[r1].exec.ToolRunning? && s.runs[r2].exec.ToolRunning?
  }
}
